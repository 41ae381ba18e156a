/** Choosing the rungs of a transcode, and the bookkeeping between resolving, encoding and packaging. */
module Transcode {
  import opened Wrappers
  import opened Fit

  datatype Codec = H264 | AV1 | Other(id: string)

  /** name is the rung's label, such as r720_h264. */
  datatype Variant = Variant(name: string, codec: Codec, width: int, height: int, crf: int, audioRate: string)

  // ---- Resolving ----

  function OfCodec(ts: seq<Variant>, codec: Codec): seq<Variant> {
    if ts == [] then []
    else OfCodec(ts[..|ts| - 1], codec) + (if ts[|ts| - 1].codec == codec then [ts[|ts| - 1]] else [])
  }

  /** The codecs in order of first appearance. */
  function CodecsOf(ts: seq<Variant>): (r: seq<Codec>)
    ensures forall i, j | 0 <= i < j < |r| :: r[i] != r[j]
  {
    if ts == [] then []
    else
      var before := CodecsOf(ts[..|ts| - 1]);
      var codec := ts[|ts| - 1].codec;
      if codec in before then before else before + [codec]
  }

  function Refit(t: Variant, sw: int, sh: int): Variant
  {
    var (w, h) := FitVariantDimensions(sw, sh, t.width, t.height);
    t.(width := w, height := h)
  }

  function Kept(ts: seq<Variant>, sw: int, sh: int): seq<Variant>
  {
    if ts == [] then []
    else
      var last := ts[|ts| - 1];
      Kept(ts[..|ts| - 1], sw, sh) + (if Min(last.width, last.height) > Min(sw, sh) then [] else [Refit(last, sw, sh)])
  }

  /** What is selected from the templates of one codec. */
  function Selected(ts: seq<Variant>, sw: int, sh: int): seq<Variant>
  {
    var kept := Kept(ts, sw, sh);
    if kept != [] || ts == [] then kept else [Refit(ts[|ts| - 1], sw, sh)]
  }

  function SelectedFor(ts: seq<Variant>, codecs: seq<Codec>, sw: int, sh: int): seq<Variant>
  {
    if codecs == [] then []
    else
      SelectedFor(ts, codecs[..|codecs| - 1], sw, sh) + Selected(OfCodec(ts, codecs[|codecs| - 1]), sw, sh)
  }

  function Resolved(ts: seq<Variant>, sw: int, sh: int): seq<Variant>
  {
    if ts == [] || sw <= 0 || sh <= 0 then ts else SelectedFor(ts, CodecsOf(ts), sw, sh)
  }

  lemma {:induction false} OfCodecMembers(ts: seq<Variant>, codec: Codec)
    ensures forall v :: v in OfCodec(ts, codec) <==> v in ts && v.codec == codec
  {
    if ts != [] {
      OfCodecMembers(ts[..|ts| - 1], codec);
      assert ts == ts[..|ts| - 1] + [ts[|ts| - 1]];
    }
  }

  method SelectVariantsForCodec(ts: seq<Variant>, sw: int, sh: int, shortEdge: int) returns (r: seq<Variant>)
    requires shortEdge == Min(sw, sh)
    ensures r == Selected(ts, sw, sh)
  {
    var selected: seq<Variant> := [];
    for i := 0 to |ts|
      invariant selected == Kept(ts[..i], sw, sh)
    {
      assert ts[..i + 1][..i] == ts[..i];
      var template := ts[i];
      var targetShortEdge := Min(template.width, template.height);
      if targetShortEdge > shortEdge {
        continue;
      }
      var (w, h) := FitVariantDimensions(sw, sh, template.width, template.height);
      selected := selected + [template.(width := w, height := h)];
    }
    assert ts[..|ts|] == ts;
    if |selected| > 0 || |ts| == 0 {
      return selected;
    }
    var fallback := ts[|ts| - 1];
    var (w, h) := FitVariantDimensions(sw, sh, fallback.width, fallback.height);
    return [fallback.(width := w, height := h)];
  }

  /** The templates have been grouped by codec. */
  ghost predicate Grouped(ts: seq<Variant>, groups: map<Codec, seq<Variant>>, codecOrder: seq<Codec>) {
    codecOrder == CodecsOf(ts) &&
    (forall c :: c in groups <==> c in codecOrder) &&
    forall c | c in groups :: groups[c] == OfCodec(ts, c)
  }

  lemma NothingGrouped()
    ensures Grouped([], map[], [])
  {
  }

  lemma OfCodecStep(ts: seq<Variant>, i: nat, codec: Codec)
    requires i < |ts|
    ensures OfCodec(ts[..i + 1], codec) == OfCodec(ts[..i], codec) + (if ts[i].codec == codec then [ts[i]] else [])
  {
    assert ts[..i + 1][..i] == ts[..i];
  }

  lemma CodecsOfStep(ts: seq<Variant>, i: nat)
    requires i < |ts|
    ensures CodecsOf(ts[..i + 1]) == CodecsOf(ts[..i]) + (if ts[i].codec in CodecsOf(ts[..i]) then [] else [ts[i].codec])
  {
    assert ts[..i + 1][..i] == ts[..i];
  }

  lemma GroupedStep(ts: seq<Variant>, i: nat, groups: map<Codec, seq<Variant>>, codecOrder: seq<Codec>)
    requires i < |ts| && Grouped(ts[..i], groups, codecOrder)
    ensures var c := ts[i].codec;
            Grouped(ts[..i + 1], groups[c := if c in groups then groups[c] + [ts[i]] else [ts[i]]],
                    if c in groups then codecOrder else codecOrder + [c])
  {
    hide OfCodec, CodecsOf;
    CodecsOfStep(ts, i);
    if ts[i].codec !in groups {
      NoneOfCodec(ts[..i], ts[i].codec);
    }
    forall codec
      ensures OfCodec(ts[..i + 1], codec) == OfCodec(ts[..i], codec) + (if ts[i].codec == codec then [ts[i]] else [])
    {
      OfCodecStep(ts, i, codec);
    }
  }

  lemma GroupedMeans(ts: seq<Variant>, groups: map<Codec, seq<Variant>>, codecOrder: seq<Codec>)
    requires Grouped(ts, groups, codecOrder)
    ensures codecOrder == CodecsOf(ts)
    ensures forall i | 0 <= i < |codecOrder| :: codecOrder[i] in groups && groups[codecOrder[i]] == OfCodec(ts, codecOrder[i])
  {
  }

  lemma {:induction false} NoneOfCodec(ts: seq<Variant>, codec: Codec)
    requires codec !in CodecsOf(ts)
    ensures OfCodec(ts, codec) == []
  {
    if ts != [] {
      NoneOfCodec(ts[..|ts| - 1], codec);
    }
  }

  lemma NothingSelected(ts: seq<Variant>, sw: int, sh: int)
    ensures SelectedFor(ts, [], sw, sh) == []
  {
  }

  lemma SelectedForStep(ts: seq<Variant>, codecs: seq<Codec>, i: nat, sw: int, sh: int)
    requires i < |codecs|
    ensures SelectedFor(ts, codecs[..i + 1], sw, sh) ==
            SelectedFor(ts, codecs[..i], sw, sh) + Selected(OfCodec(ts, codecs[i]), sw, sh)
  {
    OfCodecMembers(ts, codecs[i]);
    assert codecs[..i + 1][..i] == codecs[..i];
  }

  method ResolveTranscodeVariants(ts: seq<Variant>, sw: int, sh: int) returns (r: seq<Variant>)
    ensures r == Resolved(ts, sw, sh)
    ensures sw <= 0 || sh <= 0 ==> r == ts
  {
    hide SelectedFor, OfCodec, CodecsOf, Selected, FitVariantDimensions, Grouped;
    if |ts| == 0 || sw <= 0 || sh <= 0 {
      return ts;
    }
    var shortEdge := Min(sw, sh);
    var groups: map<Codec, seq<Variant>> := map[];
    var codecOrder: seq<Codec> := [];
    NothingGrouped();
    for i := 0 to |ts|
      invariant Grouped(ts[..i], groups, codecOrder)
    {
      GroupedStep(ts, i, groups, codecOrder);
      var template := ts[i];
      if template.codec !in groups {
        codecOrder := codecOrder + [template.codec];
        groups := groups[template.codec := [template]];
      } else {
        groups := groups[template.codec := groups[template.codec] + [template]];
      }
    }
    assert ts[..|ts|] == ts;
    GroupedMeans(ts, groups, codecOrder);
    r := [];
    NothingSelected(ts, sw, sh);
    for i := 0 to |codecOrder|
      invariant r == SelectedFor(ts, codecOrder[..i], sw, sh)
    {
      SelectedForStep(ts, codecOrder, i, sw, sh);
      var selected := SelectVariantsForCodec(groups[codecOrder[i]], sw, sh, shortEdge);
      r := r + selected;
    }
    assert codecOrder[..|codecOrder|] == codecOrder;
  }

  // ---- What resolving keeps ----

  /** A resolved variant is its template with another frame size. */
  predicate Resizes(v: Variant, t: Variant) {
    v.name == t.name && v.codec == t.codec && v.crf == t.crf && v.audioRate == t.audioRate
  }

  lemma {:induction false} KeptFrom(ts: seq<Variant>, sw: int, sh: int)
    ensures forall v <- Kept(ts, sw, sh) :: exists t <- ts :: v == Refit(t, sw, sh) && Offered(sw, sh, t.width, t.height)
    ensures forall t <- ts :: Offered(sw, sh, t.width, t.height) ==> Refit(t, sw, sh) in Kept(ts, sw, sh)
  {
    if ts != [] {
      KeptFrom(ts[..|ts| - 1], sw, sh);
      assert ts == ts[..|ts| - 1] + [ts[|ts| - 1]];
    }
  }

  lemma SelectedFrom(ts: seq<Variant>, sw: int, sh: int)
    ensures forall v <- Selected(ts, sw, sh) :: exists t <- ts :: v == Refit(t, sw, sh)
    ensures ts != [] ==> Selected(ts, sw, sh) != []
  {
    KeptFrom(ts, sw, sh);
    if ts != [] {
      assert ts[|ts| - 1] in ts;
    }
  }

  lemma {:induction false} OfCodecConcat(a: seq<Variant>, b: seq<Variant>, codec: Codec)
    ensures OfCodec(a + b, codec) == OfCodec(a, codec) + OfCodec(b, codec)
  {
    if b == [] {
      assert a + b == a;
    } else {
      OfCodecConcat(a, b[..|b| - 1], codec);
      assert (a + b)[..|a + b| - 1] == a + b[..|b| - 1];
    }
  }

  lemma {:induction false} OfCodecUniform(ts: seq<Variant>, own: Codec, codec: Codec)
    requires forall i | 0 <= i < |ts| :: ts[i].codec == own
    ensures OfCodec(ts, codec) == if own == codec then ts else []
  {
    if ts != [] {
      OfCodecUniform(ts[..|ts| - 1], own, codec);
    }
  }

  lemma SelectedOfCodec(ts: seq<Variant>, own: Codec, codec: Codec, sw: int, sh: int)
    ensures OfCodec(Selected(OfCodec(ts, own), sw, sh), codec) == if own == codec then Selected(OfCodec(ts, own), sw, sh) else []
  {
    OfCodecMembers(ts, own);
    SelectedFrom(OfCodec(ts, own), sw, sh);
    var selected := Selected(OfCodec(ts, own), sw, sh);
    forall i | 0 <= i < |selected|
      ensures selected[i].codec == own
    {
      assert selected[i] in selected;
    }
    OfCodecUniform(selected, own, codec);
  }

  lemma {:induction false} SelectedForOfCodec(ts: seq<Variant>, codecs: seq<Codec>, n: nat, codec: Codec, sw: int, sh: int)
    requires n <= |codecs| && forall i, j | 0 <= i < j < |codecs| :: codecs[i] != codecs[j]
    ensures OfCodec(SelectedFor(ts, codecs[..n], sw, sh), codec) ==
            if codec in codecs[..n] then Selected(OfCodec(ts, codec), sw, sh) else []
  {
    hide *;
    OfCodecMembers(ts, codec);
    if n == 0 {
      NothingSelected(ts, sw, sh);
      OfCodecUniform([], codec, codec);
    } else {
      var last := codecs[n - 1];
      SelectedForOfCodec(ts, codecs, n - 1, codec, sw, sh);
      SelectedForStep(ts, codecs, n - 1, sw, sh);
      SelectedOfCodec(ts, last, codec, sw, sh);
      OfCodecConcat(SelectedFor(ts, codecs[..n - 1], sw, sh), Selected(OfCodec(ts, last), sw, sh), codec);
      assert codecs[..n] == codecs[..n - 1] + [last];
    }
  }

  lemma {:induction false} CodecsOfAll(ts: seq<Variant>)
    ensures forall c :: c in CodecsOf(ts) <==> exists t <- ts :: t.codec == c
  {
    if ts != [] {
      var init, last := ts[..|ts| - 1], ts[|ts| - 1];
      CodecsOfAll(init);
      assert ts == init + [last];
      assert last in ts;
    }
  }

  /** Resolving groups the templates by codec in a stable way: what it selects of a codec depends on that codec's
      templates alone, in their order, and is never empty when there are any. */
  lemma ResolvingGroupsByCodec(ts: seq<Variant>, sw: int, sh: int, codec: Codec)
    requires sw > 0 && sh > 0
    ensures OfCodec(Resolved(ts, sw, sh), codec) == Selected(OfCodec(ts, codec), sw, sh)
    ensures (exists t <- ts :: t.codec == codec) ==> OfCodec(Resolved(ts, sw, sh), codec) != []
  {
    OfCodecMembers(ts, codec);
    if ts != [] {
      SelectedForOfCodec(ts, CodecsOf(ts), |CodecsOf(ts)|, codec, sw, sh);
      assert CodecsOf(ts)[..|CodecsOf(ts)|] == CodecsOf(ts);
      CodecsOfAll(ts);
      if codec !in CodecsOf(ts) {
        NoneOfCodec(ts, codec);
      }
      SelectedFrom(OfCodec(ts, codec), sw, sh);
      if t :| t in ts && t.codec == codec {
        assert t in OfCodec(ts, codec);
      }
    }
  }

  /** Every resolved variant is a template of the same label, codec, quality and audio rate. */
  lemma ResolvingResizes(ts: seq<Variant>, sw: int, sh: int, v: Variant)
    requires v in Resolved(ts, sw, sh)
    ensures exists t <- ts :: Resizes(v, t)
  {
    if ts != [] && sw > 0 && sh > 0 {
      OfCodecMembers(Resolved(ts, sw, sh), v.codec);
      ResolvingGroupsByCodec(ts, sw, sh, v.codec);
      OfCodecMembers(ts, v.codec);
      SelectedFrom(OfCodec(ts, v.codec), sw, sh);
      var t :| t in OfCodec(ts, v.codec) && v == Refit(t, sw, sh);
      assert Resizes(v, t);
    } else {
      assert Resizes(v, v);
    }
  }

  // ---- Encoding and packaging ----

  /** The encoded files by label: each holds the track of the last variant encoded under its label. */
  function EncodedOf(variants: seq<Variant>): (m: map<string, Variant>)
    ensures forall name :: name in m <==> exists v <- variants :: v.name == name
    ensures forall name | name in m :: m[name] in variants && m[name].name == name
  {
    if variants == [] then map[]
    else
      var last := variants[|variants| - 1];
      assert variants == variants[..|variants| - 1] + [last];
      EncodedOf(variants[..|variants| - 1])[last.name := last]
  }

  function Encoded(variants: seq<Variant>): map<string, Variant> {
    EncodedOf(OfCodec(variants, AV1)) + EncodedOf(OfCodec(variants, H264))
  }

  method VariantsForCodec(variants: seq<Variant>, codec: Codec) returns (out: seq<Variant>)
    ensures out == OfCodec(variants, codec)
  {
    out := [];
    for i := 0 to |variants|
      invariant out == OfCodec(variants[..i], codec)
    {
      assert variants[..i + 1][..i] == variants[..i];
      if variants[i].codec == codec {
        out := out + [variants[i]];
      }
    }
    assert variants[..|variants|] == variants;
  }

  lemma EncodedStep(before: map<string, Variant>, tracks: seq<Variant>, i: nat)
    requires i < |tracks|
    ensures (before + EncodedOf(tracks[..i]))[tracks[i].name := tracks[i]] == before + EncodedOf(tracks[..i + 1])
  {
    assert tracks[..i + 1][..i] == tracks[..i];
  }

  /** The loop of Transcode that encodes codec by codec; works says whether a codec's tracks can be encoded. It fails
      exactly when a codec that has variants cannot be encoded. */
  method EncodeVideos(variants: seq<Variant>, works: Codec -> bool) returns (r: Result<map<string, Variant>>)
    ensures r.Ok? <==> forall codec <- [AV1, H264] :: OfCodec(variants, codec) == [] || works(codec)
    ensures r.Ok? ==> r.value == Encoded(variants)
  {
    hide EncodedOf, OfCodec;
    var encoded: map<string, Variant> := map[];
    NothingEncoded();
    var codecs := [AV1, H264];
    for c := 0 to |codecs|
      invariant c == 0 ==> encoded == map[]
      invariant c == 1 ==> encoded == EncodedOf(OfCodec(variants, AV1))
      invariant c == 2 ==> encoded == Encoded(variants)
      invariant forall i | 0 <= i < c :: OfCodec(variants, codecs[i]) == [] || works(codecs[i])
    {
      var tracks := VariantsForCodec(variants, codecs[c]);
      if |tracks| == 0 {
        continue;
      }
      if !works(codecs[c]) {
        assert codecs[c] in [AV1, H264];
        return Err;
      }
      ghost var before := encoded;
      for i := 0 to |tracks|
        invariant encoded == before + EncodedOf(tracks[..i])
      {
        EncodedStep(before, tracks, i);
        encoded := encoded[tracks[i].name := tracks[i]];
      }
      assert tracks[..|tracks|] == tracks;
    }
    assert codecs[0] == AV1 && codecs[1] == H264;
    return Ok(encoded);
  }

  lemma NothingEncoded()
    ensures EncodedOf([]) == map[]
  {
  }

  /** The track inputs that packageHLS hands to the packager, or the failure on a missing one. */
  method PackageTracks(encoded: map<string, Variant>, variants: seq<Variant>) returns (r: Result<seq<Variant>>)
    ensures r.Ok? <==> forall v <- variants :: v.name in encoded
    ensures r.Ok? ==> |r.value| == |variants| && forall i | 0 <= i < |variants| :: r.value[i] == encoded[variants[i].name]
  {
    var inputs: seq<Variant> := [];
    for i := 0 to |variants|
      invariant |inputs| == i
      invariant forall j | 0 <= j < i :: variants[j].name in encoded && inputs[j] == encoded[variants[j].name]
    {
      if variants[i].name !in encoded {
        assert variants[i] in variants;
        return Err;
      }
      inputs := inputs + [encoded[variants[i].name]];
    }
    return Ok(inputs);
  }

  predicate DistinctLabels(ts: seq<Variant>) {
    forall i, j | 0 <= i < |ts| && 0 <= j < |ts| && ts[i].name == ts[j].name :: i == j
  }

  lemma EncodedLabels(variants: seq<Variant>, name: string)
    ensures name in Encoded(variants) <==> exists v <- variants :: v.name == name && (v.codec == AV1 || v.codec == H264)
    ensures name in Encoded(variants) ==> Encoded(variants)[name] in variants && Encoded(variants)[name].name == name
  {
    OfCodecMembers(variants, AV1);
    OfCodecMembers(variants, H264);
    if v :| v in variants && v.name == name && (v.codec == AV1 || v.codec == H264) {
      assert v in OfCodec(variants, v.codec);
    }
  }

  /** Every template's label names at most one resolved variant when the templates' labels are distinct. */
  lemma ResolvedLabelsAreUnique(ts: seq<Variant>, sw: int, sh: int, v: Variant, u: Variant)
    requires DistinctLabels(ts) && sw > 0 && sh > 0
    requires v in Resolved(ts, sw, sh) && u in Resolved(ts, sw, sh) && v.name == u.name
    ensures v == u
  {
    ResolvedIsRefit(ts, sw, sh, v);
    ResolvedIsRefit(ts, sw, sh, u);
    var i :| 0 <= i < |ts| && v == Refit(ts[i], sw, sh);
    var j :| 0 <= j < |ts| && u == Refit(ts[j], sw, sh);
    assert ts[i].name == ts[j].name;
  }

  lemma ResolvedIsRefit(ts: seq<Variant>, sw: int, sh: int, v: Variant)
    requires sw > 0 && sh > 0 && v in Resolved(ts, sw, sh)
    ensures exists i | 0 <= i < |ts| :: v == Refit(ts[i], sw, sh)
  {
    OfCodecMembers(Resolved(ts, sw, sh), v.codec);
    ResolvingGroupsByCodec(ts, sw, sh, v.codec);
    OfCodecMembers(ts, v.codec);
    SelectedFrom(OfCodec(ts, v.codec), sw, sh);
    var t :| t in OfCodec(ts, v.codec) && v == Refit(t, sw, sh);
    assert t in ts;
  }

  /** Packaging never misses a track exactly when every template has one of the two codecs that are encoded, and then
      every track is packaged from its own encoding. */
  lemma PackagingIsComplete(ts: seq<Variant>, sw: int, sh: int)
    requires DistinctLabels(ts) && sw > 0 && sh > 0
    ensures (forall v <- Resolved(ts, sw, sh) :: v.name in Encoded(Resolved(ts, sw, sh))) <==>
            forall t <- ts :: t.codec == AV1 || t.codec == H264
    ensures forall v <- Resolved(ts, sw, sh) :: v.name in Encoded(Resolved(ts, sw, sh)) ==> Encoded(Resolved(ts, sw, sh))[v.name] == v
  {
    var resolved := Resolved(ts, sw, sh);
    forall v <- resolved
      ensures v.name in Encoded(resolved) <==> v.codec == AV1 || v.codec == H264
      ensures v.name in Encoded(resolved) ==> Encoded(resolved)[v.name] == v
      ensures exists t <- ts :: t.codec == v.codec
    {
      EncodedLabels(resolved, v.name);
      if v.name in Encoded(resolved) {
        ResolvedLabelsAreUnique(ts, sw, sh, Encoded(resolved)[v.name], v);
        var u :| u in resolved && u.name == v.name && (u.codec == AV1 || u.codec == H264);
        ResolvedLabelsAreUnique(ts, sw, sh, u, v);
      }
      ResolvingResizes(ts, sw, sh, v);
    }
    forall t <- ts
      ensures exists v <- resolved :: v.codec == t.codec
    {
      ResolvingGroupsByCodec(ts, sw, sh, t.codec);
      OfCodecMembers(resolved, t.codec);
      assert OfCodec(resolved, t.codec)[0] in OfCodec(resolved, t.codec);
    }
  }

  /** A template of a third codec is resolved and never encoded, so packaging fails for every source. */
  lemma ThirdCodecIsMissed(t: Variant, sw: int, sh: int)
    requires t.codec.Other? && sw > 0 && sh > 0
    ensures exists v <- Resolved([t], sw, sh) :: v.name !in Encoded(Resolved([t], sw, sh))
  {
    PackagingIsComplete([t], sw, sh);
    assert t in [t];
  }

  // ---- In which order rungs are resolved ----

  /** Some template of the first codec comes before all of the second. */
  ghost predicate AppearsBefore(ts: seq<Variant>, c: Codec, d: Codec) {
    exists i | 0 <= i < |ts| :: ts[i].codec == c && forall j | 0 <= j <= i :: ts[j].codec != d
  }

  lemma {:induction false} CodecsInOrder(ts: seq<Variant>, i: nat, j: nat)
    requires i < j < |CodecsOf(ts)|
    ensures AppearsBefore(ts, CodecsOf(ts)[i], CodecsOf(ts)[j])
  {
    var init, c, d := ts[..|ts| - 1], CodecsOf(ts)[i], CodecsOf(ts)[j];
    CodecsOfAll(init);
    if j < |CodecsOf(init)| {
      CodecsInOrder(init, i, j);
      var k :| 0 <= k < |init| && init[k].codec == c && forall j | 0 <= j <= k :: init[j].codec != d;
      assert ts[k].codec == c && forall j | 0 <= j <= k :: ts[j].codec == init[j].codec;
    } else {
      assert CodecsOf(init)[i] == c && c in CodecsOf(init);
      var t :| t in init && t.codec == c;
      var k :| 0 <= k < |init| && init[k] == t;
      forall j | 0 <= j <= k
        ensures ts[j].codec != d
      {
        assert ts[j] == init[j] && init[j] in init;
      }
      assert ts[k].codec == c;
    }
  }

  /** Where the variants of the codec with this number end. */
  function BlockEnd(ts: seq<Variant>, codecs: seq<Codec>, p: nat, sw: int, sh: int): nat
    requires p < |codecs|
  {
    |SelectedFor(ts, codecs[..p + 1], sw, sh)|
  }

  lemma {:induction false} BlockOf(ts: seq<Variant>, codecs: seq<Codec>, n: nat, sw: int, sh: int, b: nat) returns (q: nat)
    requires n <= |codecs| && b < |SelectedFor(ts, codecs[..n], sw, sh)|
    ensures q < n && SelectedFor(ts, codecs[..n], sw, sh)[b].codec == codecs[q]
    ensures forall p: nat | p < q :: BlockEnd(ts, codecs, p, sw, sh) <= b
    ensures b < BlockEnd(ts, codecs, q, sw, sh)
  {
    hide Selected, OfCodec, SelectedFor;
    if n == 0 {
      NothingSelected(ts, sw, sh);
    }
    SelectedForStep(ts, codecs, n - 1, sw, sh);
    var before := SelectedFor(ts, codecs[..n - 1], sw, sh);
    if b < |before| {
      q := BlockOf(ts, codecs, n - 1, sw, sh, b);
    } else {
      q := n - 1;
      SelectedIsOfCodec(ts, codecs[n - 1], sw, sh, b - |before|);
      forall p: nat | p < q
        ensures BlockEnd(ts, codecs, p, sw, sh) <= b
      {
        SelectedForGrows(ts, codecs, p + 1, n - 1, sw, sh);
      }
    }
  }

  lemma {:induction false} SelectedForGrows(ts: seq<Variant>, codecs: seq<Codec>, m: nat, n: nat, sw: int, sh: int)
    requires m <= n <= |codecs|
    ensures |SelectedFor(ts, codecs[..m], sw, sh)| <= |SelectedFor(ts, codecs[..n], sw, sh)|
  {
    hide Selected, OfCodec, SelectedFor;
    if m < n {
      SelectedForGrows(ts, codecs, m, n - 1, sw, sh);
      SelectedForStep(ts, codecs, n - 1, sw, sh);
    }
  }

  lemma SelectedIsOfCodec(ts: seq<Variant>, codec: Codec, sw: int, sh: int, i: nat)
    requires i < |Selected(OfCodec(ts, codec), sw, sh)|
    ensures Selected(OfCodec(ts, codec), sw, sh)[i].codec == codec
  {
    hide Kept;
    OfCodecMembers(ts, codec);
    SelectedFrom(OfCodec(ts, codec), sw, sh);
    assert Selected(OfCodec(ts, codec), sw, sh)[i] in Selected(OfCodec(ts, codec), sw, sh);
  }

  /** The resolved variants come codec by codec, in the order in which the codecs first appear among the templates. */
  lemma CodecsStayInOrder(ts: seq<Variant>, sw: int, sh: int, a: nat, b: nat)
    requires sw > 0 && sh > 0 && a <= b < |Resolved(ts, sw, sh)|
    ensures var r := Resolved(ts, sw, sh);
            r[a].codec == r[b].codec || AppearsBefore(ts, r[a].codec, r[b].codec)
  {
    hide SelectedFor, CodecsOf, AppearsBefore, BlockEnd;
    var codecs := CodecsOf(ts);
    assert codecs[..|codecs|] == codecs;
    var p := BlockOf(ts, codecs, |codecs|, sw, sh, a);
    var q := BlockOf(ts, codecs, |codecs|, sw, sh, b);
    if p < q {
      CodecsInOrder(ts, p, q);
    }
  }

  // ---- Which rungs are resolved ----

  function ShortEdge(width: int, height: int): int {
    if width <= height then width else height
  }

  /** The rung that a template is resolved to. */
  predicate RungOfTemplate(v: Variant, t: Variant, sw: int, sh: int) {
    v.name == t.name && v.codec == t.codec && v.crf == t.crf && v.audioRate == t.audioRate &&
    (v.width, v.height) == FitVariantDimensions(sw, sh, t.width, t.height)
  }

  /** The variants are the rungs of the templates at these places, in their order and once each. */
  predicate RungsAt(vs: seq<Variant>, ts: seq<Variant>, places: seq<nat>, sw: int, sh: int) {
    && |vs| == |places|
    && (forall i | 0 <= i < |places| :: places[i] < |ts| && RungOfTemplate(vs[i], ts[places[i]], sw, sh))
    && forall i, j | 0 <= i < j < |places| :: places[i] < places[j]
  }

  /** The template's short edge is at most the source's. */
  predicate FitsSource(t: Variant, sw: int, sh: int) {
    ShortEdge(t.width, t.height) <= ShortEdge(sw, sh)
  }

  lemma KeptStep(ts: seq<Variant>, n: nat, sw: int, sh: int)
    requires n < |ts|
    ensures Kept(ts[..n + 1], sw, sh) ==
            if FitsSource(ts[n], sw, sh) then Kept(ts[..n], sw, sh) + [Refit(ts[n], sw, sh)] else Kept(ts[..n], sw, sh)
    ensures Places(ts, n + 1, sw, sh) ==
            if FitsSource(ts[n], sw, sh) then Places(ts, n, sw, sh) + [n] else Places(ts, n, sw, sh)
    ensures RungOfTemplate(Refit(ts[n], sw, sh), ts[n], sw, sh)
  {
    hide FitVariantDimensions;
    assert ts[..n + 1][..n] == ts[..n];
    var kept := Kept(ts[..n], sw, sh);
    assert kept + [] == kept;
    assert Places(ts, n, sw, sh) + [] == Places(ts, n, sw, sh);
  }

  lemma RungsSnoc(vs: seq<Variant>, v: Variant, ts: seq<Variant>, places: seq<nat>, n: nat, sw: int, sh: int)
    requires RungsAt(vs, ts, places, sw, sh) && n < |ts| && RungOfTemplate(v, ts[n], sw, sh)
    requires forall j: nat :: j in places ==> j < n
    ensures RungsAt(vs + [v], ts, places + [n], sw, sh)
  {
    hide RungOfTemplate;
    forall i | 0 <= i < |places|
      ensures places[i] < n
    {
      assert places[i] in places;
    }
  }

  /** The places of the templates that fit, among the first n. */
  function Places(ts: seq<Variant>, n: nat, sw: int, sh: int): (places: seq<nat>)
    requires n <= |ts|
    ensures forall j: nat :: j in places <==> j < n && FitsSource(ts[j], sw, sh)
  {
    if n == 0 then [] else Places(ts, n - 1, sw, sh) + if FitsSource(ts[n - 1], sw, sh) then [n - 1] else []
  }

  lemma {:induction false} KeptPlaces(ts: seq<Variant>, n: nat, sw: int, sh: int)
    requires n <= |ts|
    ensures RungsAt(Kept(ts[..n], sw, sh), ts, Places(ts, n, sw, sh), sw, sh)
  {
    hide RungsAt, RungOfTemplate, Refit, FitsSource, Kept;
    if n == 0 {
      NoRungs(ts, sw, sh);
    } else {
      KeptPlaces(ts, n - 1, sw, sh);
      KeptStep(ts, n - 1, sw, sh);
      if FitsSource(ts[n - 1], sw, sh) {
        RungsSnoc(Kept(ts[..n - 1], sw, sh), Refit(ts[n - 1], sw, sh), ts, Places(ts, n - 1, sw, sh), n - 1, sw, sh);
      }
    }
  }

  lemma NoRungs(ts: seq<Variant>, sw: int, sh: int)
    ensures RungsAt(Kept(ts[..0], sw, sh), ts, [], sw, sh)
  {
  }

  /** The places that are resolved: of all templates that fit, or of the last template if none does. */
  function ResolvedPlaces(own: seq<Variant>, sw: int, sh: int): (places: seq<nat>)
    ensures (exists j | 0 <= j < |own| :: FitsSource(own[j], sw, sh)) ==>
              forall j: nat :: j in places <==> j < |own| && FitsSource(own[j], sw, sh)
    ensures (forall j | 0 <= j < |own| :: !FitsSource(own[j], sw, sh)) ==> places == if own == [] then [] else [|own| - 1]
  {
    var places := Places(own, |own|, sw, sh);
    assert places != [] ==> places[0] in places;
    if places != [] || own == [] then places else [|own| - 1]
  }

  /** What is resolved of a codec, by its templates: those whose short edge is at most the source's, once each and in
      order; or, if there are templates but none of them fits, exactly the last one. */
  lemma ResolvedRungs(ts: seq<Variant>, sw: int, sh: int, codec: Codec)
    requires sw > 0 && sh > 0
    ensures var own := OfCodec(ts, codec);
            RungsAt(OfCodec(Resolved(ts, sw, sh), codec), own, ResolvedPlaces(own, sw, sh), sw, sh)
  {
    hide OfCodec, Resolved, Kept, Places, RungOfTemplate;
    var own := OfCodec(ts, codec);
    ResolvingGroupsByCodec(ts, sw, sh, codec);
    KeptPlaces(own, |own|, sw, sh);
    assert own[..|own|] == own;
    if own != [] {
      RefitIsRung(own[|own| - 1], sw, sh);
    }
  }

  lemma RefitIsRung(t: Variant, sw: int, sh: int)
    ensures RungOfTemplate(Refit(t, sw, sh), t, sw, sh)
  {
  }
}
