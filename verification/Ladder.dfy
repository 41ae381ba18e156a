/** The built-in ladders of a transcode, and the order of the rungs that any source is given. */
module Ladder {
  import opened Fit
  import opened Transcode
  import Decimal
  import Text

  datatype Spec = Spec(rung: nat, width: int, height: int, av1Crf: int, h264Crf: int, audioRate: string)

  const CANONICAL_VARIANT_SPECS: seq<Spec> := [
    Spec(1080, 1920, 1080, 30, 22, "128k"),
    Spec(720, 1280, 720, 32, 23, "96k"),
    Spec(480, 854, 480, 34, 24, "64k"),
    Spec(360, 640, 360, 36, 26, "48k"),
    Spec(240, 426, 240, 38, 28, "32k")
  ]

  function CodecName(codec: Codec): string {
    match codec
    case H264 => "h264"
    case AV1 => "av1"
    case Other(id) => id
  }

  function RungLabel(rung: nat, codec: Codec): string {
    "r" + Decimal.Print(rung) + "_" + CodecName(codec)
  }

  function RungOf(spec: Spec, codec: Codec): Variant {
    Variant(RungLabel(spec.rung, codec), codec, spec.width, spec.height,
            if codec == AV1 then spec.av1Crf else spec.h264Crf, spec.audioRate)
  }

  /** The rungs of one codec. */
  function RungsOf(specs: seq<Spec>, codec: Codec): (r: seq<Variant>)
    ensures |r| == |specs| && forall i | 0 <= i < |r| :: r[i] == RungOf(specs[i], codec)
  {
    seq(|specs|, i requires 0 <= i < |specs| => RungOf(specs[i], codec))
  }

  function Interleaved(specs: seq<Spec>): seq<Variant> {
    if specs == [] then []
    else Interleaved(specs[..|specs| - 1]) + [RungOf(specs[|specs| - 1], AV1), RungOf(specs[|specs| - 1], H264)]
  }

  method DefaultVariants() returns (variants: seq<Variant>)
    ensures variants == Interleaved(CANONICAL_VARIANT_SPECS)
    ensures OfCodec(variants, AV1) == RungsOf(CANONICAL_VARIANT_SPECS, AV1)
    ensures OfCodec(variants, H264) == RungsOf(CANONICAL_VARIANT_SPECS, H264)
  {
    hide OfCodec;
    variants := [];
    var specs := CANONICAL_VARIANT_SPECS;
    for i := 0 to |specs|
      invariant variants == Interleaved(specs[..i])
    {
      RungsStep(specs, i, AV1);
      variants := variants + [RungOf(specs[i], AV1), RungOf(specs[i], H264)];
    }
    assert specs[..|specs|] == specs;
    InterleavedOfCodec(specs, |specs|, AV1);
    InterleavedOfCodec(specs, |specs|, H264);
  }

  lemma RungsStep(specs: seq<Spec>, i: nat, codec: Codec)
    requires i < |specs|
    ensures RungsOf(specs[..i + 1], codec) == RungsOf(specs[..i], codec) + [RungOf(specs[i], codec)]
    ensures Interleaved(specs[..i + 1]) == Interleaved(specs[..i]) + [RungOf(specs[i], AV1), RungOf(specs[i], H264)]
  {
    assert specs[..i + 1][..i] == specs[..i];
  }

  lemma {:induction false} InterleavedOfCodec(specs: seq<Spec>, n: nat, codec: Codec)
    requires n <= |specs| && (codec == AV1 || codec == H264)
    ensures OfCodec(Interleaved(specs[..n]), codec) == RungsOf(specs[..n], codec)
  {
    hide OfCodec, RungsOf, RungOf;
    if n == 0 {
      OfCodecUniform([], codec, codec);
    } else {
      hide Interleaved;
      InterleavedOfCodec(specs, n - 1, codec);
      RungsStep(specs, n - 1, codec);
      PairOfCodec(specs[n - 1], codec);
      OfCodecConcat(Interleaved(specs[..n - 1]), [RungOf(specs[n - 1], AV1), RungOf(specs[n - 1], H264)], codec);
    }
  }

  lemma PairOfCodec(spec: Spec, codec: Codec)
    requires codec == AV1 || codec == H264
    ensures OfCodec([RungOf(spec, AV1), RungOf(spec, H264)], codec) == [RungOf(spec, codec)]
  {
    hide OfCodec;
    OfCodecConcat([RungOf(spec, AV1)], [RungOf(spec, H264)], codec);
    OfCodecUniform([RungOf(spec, AV1)], AV1, codec);
    OfCodecUniform([RungOf(spec, H264)], H264, codec);
    assert [RungOf(spec, AV1)] + [RungOf(spec, H264)] == [RungOf(spec, AV1), RungOf(spec, H264)];
  }

  // ---- Labels ----

  lemma RungLabelsDiffer(r: nat, c: Codec, s: nat, d: Codec)
    requires (c == AV1 || c == H264) && (d == AV1 || d == H264)
    requires RungLabel(r, c) == RungLabel(s, d)
    ensures r == s && c == d
  {
    var a, b := Decimal.Print(r), Decimal.Print(s);
    assert RungLabel(r, c)[1..] == a + "_" + CodecName(c);
    assert RungLabel(s, d)[1..] == b + "_" + CodecName(d);
    assert '_' !in a && '_' !in b;
    Text.CutFirst(a, CodecName(c), b, CodecName(d), '_');
    assert CodecName(c)[0] == CodecName(d)[0];
    Decimal.PrintInjective(r, s);
  }

  predicate DistinctRungs(specs: seq<Spec>) {
    forall i, j | 0 <= i < |specs| && 0 <= j < |specs| && specs[i].rung == specs[j].rung :: i == j
  }

  lemma {:induction false} InterleavedUpto(specs: seq<Spec>, n: nat)
    requires n <= |specs|
    ensures |Interleaved(specs[..n])| == 2 * n
    ensures forall i | 0 <= i < 2 * n :: Interleaved(specs[..n])[i] == RungOf(specs[i / 2], if i % 2 == 0 then AV1 else H264)
  {
    hide RungOf;
    if n > 0 {
      InterleavedUpto(specs, n - 1);
      RungsStep(specs, n - 1, AV1);
    }
  }

  lemma InterleavedAt(specs: seq<Spec>)
    ensures |Interleaved(specs)| == 2 * |specs|
    ensures forall i | 0 <= i < |Interleaved(specs)| ::
              Interleaved(specs)[i] == RungOf(specs[i / 2], if i % 2 == 0 then AV1 else H264)
  {
    hide Interleaved, RungOf;
    InterleavedUpto(specs, |specs|);
    assert specs[..|specs|] == specs;
  }

  /** Rungs of different sizes or codecs have different labels. */
  lemma InterleavedLabels(specs: seq<Spec>)
    requires DistinctRungs(specs)
    ensures DistinctLabels(Interleaved(specs))
  {
    InterleavedAt(specs);
    var all := Interleaved(specs);
    forall i, j | 0 <= i < |all| && 0 <= j < |all| && all[i].name == all[j].name
      ensures i == j
    {
      RungLabelsDiffer(specs[i / 2].rung, all[i].codec, specs[j / 2].rung, all[j].codec);
    }
  }

  // ---- Bandwidth ----

  function EstimateBandwidth(v: Variant): int {
    var base := if v.height >= 1080 then 5_000_000
                else if v.height >= 720 then 2_500_000
                else if v.height >= 480 then 1_000_000
                else if v.height >= 360 then 500_000
                else if v.height >= 240 then 300_000
                else 200_000;
    if v.codec == AV1 then base * 60 / 100 else base
  }

  /** An AV1 rung is advertised with three fifths of what any other codec is for the same height, and higher frames are
      never advertised with less. */
  lemma BandwidthOfCodecs(v: Variant, u: Variant)
    requires v.height <= u.height
    ensures v.codec == u.codec ==> EstimateBandwidth(v) <= EstimateBandwidth(u)
    ensures v.codec == AV1 && u.codec != AV1 ==> 5 * EstimateBandwidth(v) <= 3 * EstimateBandwidth(u)
    ensures v.codec == AV1 && u.codec != AV1 && v.height == u.height ==> 5 * EstimateBandwidth(v) == 3 * EstimateBandwidth(u)
    ensures v.codec != AV1 ==> 200_000 <= EstimateBandwidth(v) <= 5_000_000
  {
  }

  // ---- The order of the rungs ----

  /** Each box of the ladder contains the next ones. */
  predicate Nested(ts: seq<Variant>) {
    (forall i | 0 <= i < |ts| :: Box(ts[i].width, ts[i].height)) &&
    forall i, j | 0 <= i < j < |ts| :: ts[j].width <= ts[i].width && ts[j].height <= ts[i].height
  }

  /** Along the ladder neither the frame nor the advertised bandwidth grows. */
  predicate Descends(vs: seq<Variant>) {
    forall i, j | 0 <= i < j < |vs| ::
      vs[j].width <= vs[i].width && vs[j].height <= vs[i].height && EstimateBandwidth(vs[j]) <= EstimateBandwidth(vs[i])
  }

  /** Two kept rungs come from two templates in the same order. */
  lemma {:induction false} KeptInOrder(ts: seq<Variant>, sw: int, sh: int, i: nat, j: nat) returns (p: nat, q: nat)
    requires i < j < |Kept(ts, sw, sh)|
    ensures p < q < |ts|
    ensures Kept(ts, sw, sh)[i] == Refit(ts[p], sw, sh) && Offered(sw, sh, ts[p].width, ts[p].height)
    ensures Kept(ts, sw, sh)[j] == Refit(ts[q], sw, sh) && Offered(sw, sh, ts[q].width, ts[q].height)
  {
    var init := ts[..|ts| - 1];
    if j < |Kept(init, sw, sh)| {
      p, q := KeptInOrder(init, sw, sh, i, j);
    } else {
      q := |ts| - 1;
      KeptFrom(init, sw, sh);
      assert Kept(init, sw, sh)[i] in Kept(init, sw, sh);
      p :| 0 <= p < |init| && Kept(init, sw, sh)[i] == Refit(init[p], sw, sh) && Offered(sw, sh, init[p].width, init[p].height);
    }
  }

  lemma RefitDescends(t: Variant, t': Variant, sw: int, sh: int)
    requires sw >= 1 && sh >= 1 && t.codec == t'.codec
    requires Box(t.width, t.height) && Box(t'.width, t'.height) && t'.width <= t.width && t'.height <= t.height
    requires Offered(sw, sh, t.width, t.height) && Offered(sw, sh, t'.width, t'.height)
    ensures var v, v' := Refit(t, sw, sh), Refit(t', sw, sh);
            v'.width <= v.width && v'.height <= v.height && EstimateBandwidth(v') <= EstimateBandwidth(v)
  {
    var v, v' := Refit(t, sw, sh), Refit(t', sw, sh);
    FitIsMonotone(sw, sh, t'.width, t'.height, v'.width, v'.height, t.width, t.height, v.width, v.height);
  }

  lemma OwnCodec(ts: seq<Variant>, codec: Codec)
    ensures forall i | 0 <= i < |OfCodec(ts, codec)| :: OfCodec(ts, codec)[i].codec == codec
  {
    OfCodecMembers(ts, codec);
    forall i | 0 <= i < |OfCodec(ts, codec)|
      ensures OfCodec(ts, codec)[i].codec == codec
    {
      assert OfCodec(ts, codec)[i] in OfCodec(ts, codec);
    }
  }

  /** For every source, whatever its shape or size, the resolved rungs of a codec whose templates are nested even
      boxes never grow in width, height or bandwidth. */
  lemma LadderDescends(ts: seq<Variant>, sw: int, sh: int, codec: Codec)
    requires Nested(OfCodec(ts, codec))
    ensures Descends(OfCodec(Resolved(ts, sw, sh), codec))
  {
    OwnCodec(ts, codec);
    if ts != [] && sw > 0 && sh > 0 {
      ResolvingGroupsByCodec(ts, sw, sh, codec);
      SelectedDescends(OfCodec(ts, codec), codec, sw, sh);
    }
  }

  lemma SelectedDescends(own: seq<Variant>, codec: Codec, sw: int, sh: int)
    requires Nested(own) && sw > 0 && sh > 0
    requires forall i | 0 <= i < |own| :: own[i].codec == codec
    ensures Descends(Selected(own, sw, sh))
  {
    var kept := Kept(own, sw, sh);
    forall i, j | 0 <= i < j < |kept|
      ensures kept[j].width <= kept[i].width && kept[j].height <= kept[i].height &&
              EstimateBandwidth(kept[j]) <= EstimateBandwidth(kept[i])
    {
      var p, q := KeptInOrder(own, sw, sh, i, j);
      RefitDescends(own[p], own[q], sw, sh);
    }
  }

  /** Templates that pair up with equal boxes and audio rates. */
  predicate SameBoxes(ts: seq<Variant>, us: seq<Variant>) {
    |ts| == |us| && forall i | 0 <= i < |ts| ::
      ts[i].width == us[i].width && ts[i].height == us[i].height && ts[i].audioRate == us[i].audioRate
  }

  lemma {:induction false} KeptPairsUp(ts: seq<Variant>, us: seq<Variant>, sw: int, sh: int)
    requires SameBoxes(ts, us)
    ensures SameBoxes(Kept(ts, sw, sh), Kept(us, sw, sh))
  {
    if ts != [] {
      KeptPairsUp(ts[..|ts| - 1], us[..|us| - 1], sw, sh);
    }
  }

  lemma SelectedPairsUp(ts: seq<Variant>, us: seq<Variant>, sw: int, sh: int)
    requires SameBoxes(ts, us)
    ensures SameBoxes(Selected(ts, sw, sh), Selected(us, sw, sh))
  {
    KeptPairsUp(ts, us, sw, sh);
  }

  /** Each spec's box contains the next ones. */
  predicate NestedSpecs(specs: seq<Spec>) {
    (forall i | 0 <= i < |specs| :: Box(specs[i].width, specs[i].height)) &&
    forall i, j | 0 <= i < j < |specs| :: specs[j].width <= specs[i].width && specs[j].height <= specs[i].height
  }

  lemma CanonicalSpecs()
    ensures NestedSpecs(CANONICAL_VARIANT_SPECS) && DistinctRungs(CANONICAL_VARIANT_SPECS) && |CANONICAL_VARIANT_SPECS| == 5
  {
    var specs := CANONICAL_VARIANT_SPECS;
    forall i, j | 0 <= i < j < |specs|
      ensures specs[j].rung < specs[i].rung && specs[j].width <= specs[i].width && specs[j].height <= specs[i].height
    {
      CanonicalSpecAt(i);
      CanonicalSpecAt(j);
    }
    forall i | 0 <= i < |specs|
      ensures Box(specs[i].width, specs[i].height)
    {
      CanonicalSpecAt(i);
    }
  }

  lemma CanonicalSpecAt(i: nat)
    requires i < |CANONICAL_VARIANT_SPECS|
    ensures var s := CANONICAL_VARIANT_SPECS[i];
            |CANONICAL_VARIANT_SPECS| == 5 &&
            s.rung == [1080, 720, 480, 360, 240][i] && s.height == s.rung && s.width == [1920, 1280, 854, 640, 426][i]
  {
  }

  lemma SameRungs(specs: seq<Spec>)
    ensures SameBoxes(RungsOf(specs, AV1), RungsOf(specs, H264))
  {
  }

  lemma NestedRungs(specs: seq<Spec>, codec: Codec)
    requires NestedSpecs(specs)
    ensures Nested(RungsOf(specs, codec))
  {
  }

  /** Resolving the default ladder for any source with known geometry: both codecs get at least one rung, their rungs
      pair up frame by frame, neither ladder grows on its way down, and every rung is packaged from its own encoding. */
  lemma DefaultLadder(sw: int, sh: int)
    requires sw > 0 && sh > 0
    ensures var r := Resolved(Interleaved(CANONICAL_VARIANT_SPECS), sw, sh);
            OfCodec(r, AV1) != [] && SameBoxes(OfCodec(r, AV1), OfCodec(r, H264)) &&
            Descends(OfCodec(r, AV1)) && Descends(OfCodec(r, H264)) &&
            forall v <- r :: v.name in Encoded(r) && Encoded(r)[v.name] == v
  {
    hide OfCodec, Resolved, Selected, Encoded, EncodedOf, Descends, RungsOf, Interleaved, NestedSpecs, Nested, CANONICAL_VARIANT_SPECS, SameBoxes;
    var specs := CANONICAL_VARIANT_SPECS;
    var ts := Interleaved(specs);
    assert specs[..|specs|] == specs;
    CanonicalSpecs();
    NestedRungs(specs, AV1);
    NestedRungs(specs, H264);
    InterleavedOfCodec(specs, |specs|, AV1);
    InterleavedOfCodec(specs, |specs|, H264);
    LadderDescends(ts, sw, sh, AV1);
    LadderDescends(ts, sw, sh, H264);
    ResolvingGroupsByCodec(ts, sw, sh, AV1);
    ResolvingGroupsByCodec(ts, sw, sh, H264);
    SameRungs(specs);
    SelectedPairsUp(RungsOf(specs, AV1), RungsOf(specs, H264), sw, sh);
    InterleavedAt(specs);
    assert ts[0].codec == AV1 && ts[0] in ts;
    InterleavedLabels(specs);
    PackagingIsComplete(ts, sw, sh);
  }

  // ---- The default ladder, rung by rung ----

  /** Every template of the default ladder: labels, frames, qualities and audio rates of both codecs. */
  lemma DefaultRungs(i: nat)
    requires i < 5
    ensures var ts := Interleaved(CANONICAL_VARIANT_SPECS);
            |ts| == 10 &&
            ts[2 * i] == Variant(["r1080_av1", "r720_av1", "r480_av1", "r360_av1", "r240_av1"][i], AV1,
                                 [1920, 1280, 854, 640, 426][i], [1080, 720, 480, 360, 240][i], [30, 32, 34, 36, 38][i],
                                 ["128k", "96k", "64k", "48k", "32k"][i]) &&
            ts[2 * i + 1] == Variant(["r1080_h264", "r720_h264", "r480_h264", "r360_h264", "r240_h264"][i], H264,
                                     [1920, 1280, 854, 640, 426][i], [1080, 720, 480, 360, 240][i], [22, 23, 24, 26, 28][i],
                                     ["128k", "96k", "64k", "48k", "32k"][i])
  {
    CanonicalSpecs();
    InterleavedAt(CANONICAL_VARIANT_SPECS);
    RungOfSpec(i, AV1);
    RungOfSpec(i, H264);
  }

  lemma RungOfSpec(i: nat, codec: Codec)
    requires i < 5 && |CANONICAL_VARIANT_SPECS| == 5 && (codec == AV1 || codec == H264)
    ensures RungOf(CANONICAL_VARIANT_SPECS[i], codec) ==
            Variant(if codec == AV1 then ["r1080_av1", "r720_av1", "r480_av1", "r360_av1", "r240_av1"][i]
                    else ["r1080_h264", "r720_h264", "r480_h264", "r360_h264", "r240_h264"][i],
                    codec, [1920, 1280, 854, 640, 426][i], [1080, 720, 480, 360, 240][i],
                    if codec == AV1 then [30, 32, 34, 36, 38][i] else [22, 23, 24, 26, 28][i],
                    ["128k", "96k", "64k", "48k", "32k"][i])
  {
    hide CANONICAL_VARIANT_SPECS, RungLabel;
    LabelOfAV1(i);
    LabelOfH264(i);
    CanonicalSpecOf(i);
  }

  lemma LabelOfAV1(i: nat)
    requires i < 5
    ensures RungLabel([1080, 720, 480, 360, 240][i], AV1) == ["r1080_av1", "r720_av1", "r480_av1", "r360_av1", "r240_av1"][i]
  {
    hide Decimal.Print;
    PrintedRungs();
  }

  lemma LabelOfH264(i: nat)
    requires i < 5
    ensures RungLabel([1080, 720, 480, 360, 240][i], H264) == ["r1080_h264", "r720_h264", "r480_h264", "r360_h264", "r240_h264"][i]
  {
    hide Decimal.Print;
    PrintedRungs();
  }

  lemma CanonicalSpecOf(i: nat)
    requires i < 5
    ensures |CANONICAL_VARIANT_SPECS| == 5
    ensures CANONICAL_VARIANT_SPECS[i] ==
            Spec([1080, 720, 480, 360, 240][i], [1920, 1280, 854, 640, 426][i], [1080, 720, 480, 360, 240][i],
                 [30, 32, 34, 36, 38][i], [22, 23, 24, 26, 28][i], ["128k", "96k", "64k", "48k", "32k"][i])
  {
  }

  lemma PrintedRungs()
    ensures Decimal.Print(1080) == "1080" && Decimal.Print(720) == "720" && Decimal.Print(480) == "480"
    ensures Decimal.Print(360) == "360" && Decimal.Print(240) == "240"
  {
    PrintTwo(10);
    PrintTwo(72);
    PrintTwo(48);
    PrintTwo(36);
    PrintTwo(24);
    assert Decimal.Print(108) == "108";
  }

  lemma PrintTwo(n: nat)
    requires 10 <= n < 100
    ensures Decimal.Print(n) == [Decimal.DigitOf(n / 10), Decimal.DigitOf(n % 10)]
  {
  }

  /** A source whose short edge is below 240 gets the lowest rung of each codec, and nothing else. */
  lemma SmallSources(sw: int, sh: int)
    requires sw > 0 && sh > 0 && (sw < 240 || sh < 240)
    ensures var r, (w, h) := Resolved(Interleaved(CANONICAL_VARIANT_SPECS), sw, sh), FitVariantDimensions(sw, sh, 426, 240);
            OfCodec(r, AV1) == [Variant("r240_av1", AV1, w, h, 38, "32k")] &&
            OfCodec(r, H264) == [Variant("r240_h264", H264, w, h, 28, "32k")]
  {
    SmallSource(sw, sh, AV1);
    SmallSource(sw, sh, H264);
    CanonicalSpecs();
    RungOfSpec(4, AV1);
    RungOfSpec(4, H264);
  }

  lemma SmallSource(sw: int, sh: int, codec: Codec)
    requires sw > 0 && sh > 0 && (sw < 240 || sh < 240) && (codec == AV1 || codec == H264)
    ensures |CANONICAL_VARIANT_SPECS| == 5
    ensures var vs, t := OfCodec(Resolved(Interleaved(CANONICAL_VARIANT_SPECS), sw, sh), codec), RungOf(CANONICAL_VARIANT_SPECS[4], codec);
            |vs| == 1 && RungOfTemplate(vs[0], t, sw, sh)
  {
    hide OfCodec, Resolved, RungOf, Interleaved, CANONICAL_VARIANT_SPECS, RungsOf, RungsAt, RungOfTemplate, ResolvedPlaces;
    var specs := CANONICAL_VARIANT_SPECS;
    LargeRungs(codec);
    assert specs[..|specs|] == specs;
    InterleavedOfCodec(specs, |specs|, codec);
    ResolvedRungs(Interleaved(specs), sw, sh, codec);
    OnlyRung(OfCodec(Resolved(Interleaved(specs), sw, sh), codec), RungsOf(specs, codec), sw, sh);
  }

  lemma LargeRungs(codec: Codec)
    requires codec == AV1 || codec == H264
    ensures |CANONICAL_VARIANT_SPECS| == 5
    ensures forall j | 0 <= j < 5 ::
              ShortEdge(RungsOf(CANONICAL_VARIANT_SPECS, codec)[j].width, RungsOf(CANONICAL_VARIANT_SPECS, codec)[j].height) >= 240
  {
    hide RungOf;
    CanonicalSpecs();
    forall j | 0 <= j < 5
      ensures ShortEdge(RungOf(CANONICAL_VARIANT_SPECS[j], codec).width, RungOf(CANONICAL_VARIANT_SPECS[j], codec).height) >= 240
    {
      RungOfSpec(j, codec);
    }
  }

  lemma OnlyRung(vs: seq<Variant>, own: seq<Variant>, sw: int, sh: int)
    requires own != [] && RungsAt(vs, own, [|own| - 1], sw, sh)
    ensures |vs| == 1 && RungOfTemplate(vs[0], own[|own| - 1], sw, sh)
  {
    hide RungOfTemplate;
  }

  /** The advertised bandwidths. */
  lemma BandwidthTable(v: Variant)
    ensures v.codec != AV1 ==>
              EstimateBandwidth(v) ==
              if v.height < 240 then 200000 else if v.height < 360 then 300000 else if v.height < 480 then 500000
              else if v.height < 720 then 1000000 else if v.height < 1080 then 2500000 else 5000000
    ensures v.codec == AV1 ==>
              EstimateBandwidth(v) ==
              if v.height < 240 then 120000 else if v.height < 360 then 180000 else if v.height < 480 then 300000
              else if v.height < 720 then 600000 else if v.height < 1080 then 1500000 else 3000000
  {
  }
}
