/** Building the options of a job from a structured pipeline. */
module Pipelines {
  import opened Wrappers
  import opened OptionMaps
  import opened Requests
  import Text

  datatype CoverStage = CoverStage(enabled: bool, timestampSec: real)
  datatype PreviewStage = PreviewStage(enabled: bool, options: PreviewOptions)
  datatype HlsStage = HlsStage(enabled: bool, profile: string, encryption: Option<bool>)
  datatype WaveformStage = WaveformStage(enabled: bool, profile: string, bins: int)
  datatype Download = Download(profile: string, format: string, bitrate: string)

  /** outputs, transcode and analyze are only looked at for being there. */
  datatype Pipeline = Pipeline(analyze: bool, cover: Option<CoverStage>, outputs: nat, hls: Option<HlsStage>,
                               preview: Option<PreviewStage>, transcode: bool, downloads: seq<Download>,
                               waveform: Option<WaveformStage>, normalize: Option<bool>)

  /** A word of a request, without regard to case and to white space around it. */
  function Word(s: string): string {
    Text.Lower(Text.TrimSpace(s))
  }

  // ---- Downloads ----

  predicate AsksMp3(d: Download) {
    (Word(d.profile) == "download_mp3_high" && Word(d.format) in {"", "mp3"}) ||
    (Word(d.profile) == "" && Word(d.format) == "mp3")
  }

  predicate AsksFlac(d: Download) {
    Blank(d.bitrate) &&
    ((Word(d.profile) == "download_flac_standard" && Word(d.format) in {"", "flac"}) ||
     (Word(d.profile) == "" && Word(d.format) == "flac"))
  }

  /** The MP3 bit rate that a download sets. */
  function BitrateOf(d: Download): Option<string> {
    if !AsksMp3(d) then None
    else if Word(d.profile) == "download_mp3_high" then Some("320k")
    else if Blank(d.bitrate) then None
    else Some(d.bitrate)
  }

  function WithDownload(o: AudioOptions, d: Download): AudioOptions {
    o.(mp3 := o.mp3 || AsksMp3(d), flac := o.flac || AsksFlac(d),
       mp3Bitrate := if BitrateOf(d).Some? then BitrateOf(d).value else o.mp3Bitrate)
  }

  /** What a download makes of the options so far, profile by profile. */
  predicate Applied(o: AudioOptions, d: Download, r: Result<AudioOptions>) {
    var profile, format := Word(d.profile), Word(d.format);
    if profile == "download_mp3_high" then
      r == if format == "" || format == "mp3" then Ok(o.(mp3 := true, mp3Bitrate := "320k")) else Err
    else if profile == "download_flac_standard" then
      r == if (format == "" || format == "flac") && Blank(d.bitrate) then Ok(o.(flac := true)) else Err
    else if profile != "" then r == Err
    else if format == "mp3" then r == Ok(if Blank(d.bitrate) then o.(mp3 := true) else o.(mp3 := true, mp3Bitrate := d.bitrate))
    else r == if format == "flac" && Blank(d.bitrate) then Ok(o.(flac := true)) else Err
  }

  lemma AudioSet(m: Map, key: string, value: Json)
    requires DecodeAudio(m).Ok?
    ensures value.Bool? && key in {"hls", "encrypt", "mp3", "flac", "waveform"} ==> AudioFields(m[key := value])
    ensures IsInt(value) && key == "waveform_bins" ==> AudioFields(m[key := value])
    ensures IsStr(value) && key == "mp3_bitrate" ==> AudioFields(m[key := value])
    ensures forall k :: Field(m[key := value], k) == if k == key then value else Field(m, k)
  {
  }

  /** One download either adds its format to the options or is refused. */
  method ApplyStructuredAudioDownload(options: Map, d: Download) returns (r: Result<Map>)
    requires DecodeAudio(options).Ok?
    ensures r.Ok? <==> AsksMp3(d) || AsksFlac(d)
    ensures r.Ok? ==> DecodeAudio(r.value) == Ok(WithDownload(DecodeAudio(options).value, d))
    ensures Applied(DecodeAudio(options).value, d, if r.Ok? then DecodeAudio(r.value) else Err)
  {
    hide Blank, Word, AudioFields, Field;
    var m := options;
    var profile := Word(d.profile);
    if profile == "download_mp3_high" {
      var format := Word(d.format);
      if format != "" && format != "mp3" {
        return Err;
      }
      AudioSet(m, "mp3", Bool(true));
      m := m["mp3" := Bool(true)];
      AudioSet(m, "mp3_bitrate", Str("320k"));
      m := m["mp3_bitrate" := Str("320k")];
      return Ok(m);
    }
    if profile == "download_flac_standard" {
      var format := Word(d.format);
      if format != "" && format != "flac" {
        return Err;
      }
      if !Blank(d.bitrate) {
        return Err;
      }
      AudioSet(m, "flac", Bool(true));
      m := m["flac" := Bool(true)];
      return Ok(m);
    }
    if profile != "" {
      return Err;
    }
    var format := Word(d.format);
    if format == "mp3" {
      AudioSet(m, "mp3", Bool(true));
      m := m["mp3" := Bool(true)];
      if !Blank(d.bitrate) {
        AudioSet(m, "mp3_bitrate", Str(d.bitrate));
        m := m["mp3_bitrate" := Str(d.bitrate)];
      }
      return Ok(m);
    }
    if format == "flac" {
      if !Blank(d.bitrate) {
        return Err;
      }
      AudioSet(m, "flac", Bool(true));
      m := m["flac" := Bool(true)];
      return Ok(m);
    }
    return Err;
  }

  // ---- Audio ----

  /** The bit rate that the last of the downloads to set one has set. */
  function LastBitrate(ds: seq<Download>): string {
    if ds == [] then ""
    else if BitrateOf(ds[|ds| - 1]).Some? then BitrateOf(ds[|ds| - 1]).value
    else LastBitrate(ds[..|ds| - 1])
  }

  predicate Packages(p: Pipeline) {
    p.hls.Some? && p.hls.value.enabled
  }

  predicate Encrypts(p: Pipeline) {
    p.hls.Some? && p.hls.value.encryption == Some(true)
  }

  predicate DrawsWaveform(p: Pipeline) {
    p.waveform.Some? && p.waveform.value.enabled
  }

  predicate Accepted(ds: seq<Download>) {
    forall i | 0 <= i < |ds| :: AsksMp3(ds[i]) || AsksFlac(ds[i])
  }

  /** The pipeline's stages that come before the downloads are acceptable. */
  predicate StagesAccepted(p: Pipeline) {
    (DrawsWaveform(p) ==> Word(p.waveform.value.profile) in {"", "waveform_standard"}) &&
    p.normalize != Some(true) &&
    (p.hls.Some? ==> Word(p.hls.value.profile) in {"", "stream_aac_standard"}) &&
    (Encrypts(p) ==> Packages(p))
  }

  /** The options that a pipeline stands for. */
  function AskedAudio(p: Pipeline): AudioOptions {
    var ds := p.downloads;
    AudioOptions(Packages(p), Encrypts(p),
                 exists i | 0 <= i < |ds| :: AsksMp3(ds[i]),
                 exists i | 0 <= i < |ds| :: AsksFlac(ds[i]),
                 DrawsWaveform(p),
                 if DrawsWaveform(p) && p.waveform.value.bins > 0 then p.waveform.value.bins else 0,
                 LastBitrate(ds))
  }

  /** The stages before the downloads. */
  method BuildAudioStages(p: Pipeline) returns (r: Result<Map>)
    ensures r.Ok? <==> StagesAccepted(p)
    ensures r.Ok? ==> DecodeAudio(r.value) == Ok(AskedAudio(p.(downloads := [])))
  {
    hide Word, AudioFields, Field;
    var options: Map := map[];
    NothingBuilt();
    if p.waveform.Some? && p.waveform.value.enabled {
      var profile := Word(p.waveform.value.profile);
      if profile != "" && profile != "waveform_standard" {
        return Err;
      }
      AudioSet(options, "waveform", Bool(true));
      options := options["waveform" := Bool(true)];
      if p.waveform.value.bins > 0 {
        AudioSet(options, "waveform_bins", Num(p.waveform.value.bins as real));
        options := options["waveform_bins" := Num(p.waveform.value.bins as real)];
      }
    }
    if p.normalize == Some(true) {
      return Err;
    }
    if p.hls.Some? {
      var profile := Word(p.hls.value.profile);
      if profile != "" && profile != "stream_aac_standard" {
        return Err;
      }
      if p.hls.value.enabled {
        AudioSet(options, "hls", Bool(true));
        options := options["hls" := Bool(true)];
      }
      if p.hls.value.encryption.Some? && p.hls.value.encryption.value {
        if !p.hls.value.enabled {
          return Err;
        }
        AudioSet(options, "encrypt", Bool(true));
        options := options["encrypt" := Bool(true)];
      }
    }
    return Ok(options);
  }

  lemma NothingBuilt()
    ensures AudioFields(map[])
    ensures forall k :: Field(map[], k) == Null
  {
  }

  /** One more download. */
  lemma AskedStep(p: Pipeline, i: nat)
    requires i < |p.downloads|
    ensures AskedAudio(p.(downloads := p.downloads[..i + 1])) ==
            WithDownload(AskedAudio(p.(downloads := p.downloads[..i])), p.downloads[i])
  {
    hide AsksMp3, AsksFlac, BitrateOf;
    var ds := p.downloads;
    assert ds[..i + 1][..i] == ds[..i];
    assert ds[..i + 1] == ds[..i] + [ds[i]];
    assert forall j | 0 <= j < i :: ds[..i][j] == ds[..i + 1][j];
    assert ds[..i + 1][i] == ds[i];
  }

  /** buildStructuredAudioOptions */
  method BuildStructuredAudioOptions(pipeline: Option<Pipeline>) returns (r: Result<Map>)
    ensures pipeline.None? ==> r == Ok(map[])
    ensures pipeline.Some? ==> (r.Ok? <==> StagesAccepted(pipeline.value) && Accepted(pipeline.value.downloads))
    ensures pipeline.Some? && r.Ok? ==> DecodeAudio(r.value) == Ok(AskedAudio(pipeline.value))
  {
    hide DecodeAudio, AskedAudio, WithDownload, AsksMp3, AsksFlac, StagesAccepted;
    if pipeline.None? {
      return Ok(map[]);
    }
    var p := pipeline.value;
    var built := BuildAudioStages(p);
    if built.Err? {
      return Err;
    }
    var options := built.value;
    for i := 0 to |p.downloads|
      invariant Accepted(p.downloads[..i])
      invariant DecodeAudio(options) == Ok(AskedAudio(p.(downloads := p.downloads[..i])))
    {
      AskedStep(p, i);
      var applied := ApplyStructuredAudioDownload(options, p.downloads[i]);
      if applied.Err? {
        return Err;
      }
      options := applied.value;
      assert p.downloads[..i + 1] == p.downloads[..i] + [p.downloads[i]];
    }
    assert p.downloads[..|p.downloads|] == p.downloads;
    return Ok(options);
  }

  /** The bit rate is that of the last download that sets one. */
  lemma {:induction false} LastBitrateMeans(ds: seq<Download>, i: nat)
    requires i < |ds| && BitrateOf(ds[i]).Some? && forall j | i < j < |ds| :: BitrateOf(ds[j]).None?
    ensures LastBitrate(ds) == BitrateOf(ds[i]).value
  {
    hide BitrateOf;
    if i < |ds| - 1 {
      LastBitrateMeans(ds[..|ds| - 1], i);
    }
  }

  lemma {:induction false} NoBitrate(ds: seq<Download>)
    requires forall i | 0 <= i < |ds| :: BitrateOf(ds[i]).None?
    ensures LastBitrate(ds) == ""
  {
    hide BitrateOf;
    if ds != [] {
      NoBitrate(ds[..|ds| - 1]);
    }
  }

  /** What a pipeline stands for, stage by stage, and which stages are acceptable. */
  lemma AskedAudioMeans(p: Pipeline)
    ensures var o := AskedAudio(p);
            (o.hls <==> p.hls.Some? && p.hls.value.enabled) &&
            (o.encrypt <==> p.hls.Some? && p.hls.value.encryption == Some(true)) &&
            (o.waveform <==> p.waveform.Some? && p.waveform.value.enabled) &&
            (o.waveform && p.waveform.value.bins > 0 ==> o.waveformBins == p.waveform.value.bins) &&
            (!o.waveform || p.waveform.value.bins <= 0 ==> o.waveformBins == 0)
    ensures p.normalize == Some(true) ==> !StagesAccepted(p)
    ensures p.hls.Some? && p.hls.value.encryption == Some(true) && !p.hls.value.enabled ==> !StagesAccepted(p)
    ensures p.hls.Some? && Word(p.hls.value.profile) !in {"", "stream_aac_standard"} ==> !StagesAccepted(p)
    ensures p.waveform.Some? && p.waveform.value.enabled && Word(p.waveform.value.profile) !in {"", "waveform_standard"} ==>
              !StagesAccepted(p)
    ensures p.normalize != Some(true) && p.hls.None? && (p.waveform.None? || !p.waveform.value.enabled) ==> StagesAccepted(p)
  {
    hide Word, AsksMp3, AsksFlac, LastBitrate;
  }

  /** The built options of an accepted pipeline are refused by validation exactly when encryption and downloads are
      combined. */
  lemma BuiltAudioIsValidIff(p: Pipeline)
    requires StagesAccepted(p) && Accepted(p.downloads)
    ensures EncryptionAllowed(Normal(AskedAudio(p))) <==> !(Encrypts(p) && p.downloads != [])
  {
    hide Word, Blank, AsksMp3, AsksFlac, LastBitrate;
    if p.downloads != [] {
      assert AsksMp3(p.downloads[0]) || AsksFlac(p.downloads[0]);
    }
  }

  // ---- Video ----

  predicate IsDefaultVideoPipeline(p: Pipeline) {
    !p.analyze && p.cover.None? && p.preview.None? && !p.transcode && p.outputs == 0 && p.hls.None? &&
    p.downloads == [] && p.waveform.None? && p.normalize.None?
  }

  /** buildStructuredVideoRequest: the job type and its options. */
  function BuildStructuredVideoRequest(pipeline: Option<Pipeline>): Result<(string, Map)> {
    if pipeline.None? || IsDefaultVideoPipeline(pipeline.value) then Ok((VIDEO_FULL, map[]))
    else
      var p := pipeline.value;
      if p.transcode || p.downloads != [] || DrawsWaveform(p) || p.normalize == Some(true) then Err
      else if p.hls.Some? && Word(p.hls.value.profile) !in {"", "stream_video_standard"} then Err
      else
        var cover := p.cover.Some? && p.cover.value.enabled;
        var preview := p.preview.Some? && p.preview.value.enabled;
        var hls := Packages(p);
        if cover && !preview && !hls then Ok((VIDEO_COVER, CoverToMap(CoverOptions(p.cover.value.timestampSec))))
        else if !cover && preview && !hls then Ok((VIDEO_PREVIEW, PreviewToMap(p.preview.value.options)))
        else if !cover && !preview && hls then Ok((VIDEO_TRANSCODE, TranscodeToMap(TranscodeOptions(Encrypts(p)))))
        else if cover && preview && hls then
          Ok((VIDEO_FULL, FullToMap(FullOptions(Some(CoverOptions(p.cover.value.timestampSec)),
                                               Some(p.preview.value.options),
                                               Some(TranscodeOptions(Encrypts(p)))))))
        else Err
  }

  datatype Stage = CoverWanted | PreviewWanted | HlsWanted

  /** The stages that a pipeline enables; the default pipeline means all of them. */
  function Wanted(pipeline: Option<Pipeline>): set<Stage> {
    if pipeline.None? || IsDefaultVideoPipeline(pipeline.value) then {CoverWanted, PreviewWanted, HlsWanted}
    else
      var p := pipeline.value;
      (if p.cover.Some? && p.cover.value.enabled then {CoverWanted} else {}) +
      (if p.preview.Some? && p.preview.value.enabled then {PreviewWanted} else {}) +
      (if Packages(p) then {HlsWanted} else {})
  }

  /** The stages that a job type runs. */
  function StagesOf(kind: string): set<Stage> {
    if kind == VIDEO_FULL then {CoverWanted, PreviewWanted, HlsWanted}
    else if kind == VIDEO_COVER then {CoverWanted}
    else if kind == VIDEO_PREVIEW then {PreviewWanted}
    else if kind == VIDEO_TRANSCODE then {HlsWanted}
    else {}
  }

  /** The stage options of a full job, absent ones being empty. */
  function CoverOf(o: FullOptions): CoverOptions { if o.cover.Some? then o.cover.value else NO_COVER }
  function PreviewOf(o: FullOptions): PreviewOptions { if o.preview.Some? then o.preview.value else NO_PREVIEW }
  function TranscodeOf(o: FullOptions): TranscodeOptions { if o.transcode.Some? then o.transcode.value else NO_TRANSCODE }

  /** The job that is built runs exactly the stages that are wanted, its options parse, and they carry the stages'
      parameters. */
  lemma BuiltVideoRunsWhatIsWanted(p: Pipeline)
    requires BuildStructuredVideoRequest(Some(p)).Ok? && !IsDefaultVideoPipeline(p)
    ensures var (kind, options) := BuildStructuredVideoRequest(Some(p)).value;
            StagesOf(kind) == Wanted(Some(p)) && Parse(kind, options).Ok? && KindOf(Parse(kind, options).value) == kind &&
            match Parse(kind, options).value
            case Cover(c) => c == CoverOptions(p.cover.value.timestampSec)
            case Preview(v) => v == p.preview.value.options
            case Transcode(t) => t.encrypt == Encrypts(p)
            case Full(f) => CoverOf(f).timestampSec == p.cover.value.timestampSec &&
                            PreviewOf(f) == p.preview.value.options && TranscodeOf(f).encrypt == Encrypts(p)
            case Audio(_) => false
  {
    hide DecodeAudio, DecodeCover, DecodePreview, DecodeTranscode, DecodeFull, CoverToMap, PreviewToMap, TranscodeToMap, FullToMap, Word;
    var cover := CoverOptions(if p.cover.Some? then p.cover.value.timestampSec else 0.0);
    var preview := if p.preview.Some? then p.preview.value.options else NO_PREVIEW;
    var transcode := TranscodeOptions(Encrypts(p));
    CoverRoundTrip(cover);
    PreviewRoundTrip(preview);
    TranscodeRoundTrip(transcode);
    FullRoundTrip(FullOptions(Some(cover), Some(preview), Some(transcode)));
  }

  /** Stages that have no place in a video pipeline, and a stream profile that is not known. */
  predicate Unsupported(p: Pipeline) {
    p.transcode || p.downloads != [] || DrawsWaveform(p) || p.normalize == Some(true) ||
    (p.hls.Some? && Word(p.hls.value.profile) !in {"", "stream_video_standard"})
  }

  /** A pipeline is accepted exactly when it is the default one, or holds nothing unsupported and some job type runs
      exactly the stages that it wants. */
  lemma BuiltVideoIff(p: Pipeline)
    ensures BuildStructuredVideoRequest(Some(p)).Ok? <==>
            IsDefaultVideoPipeline(p) ||
            (!Unsupported(p) && exists kind <- [VIDEO_COVER, VIDEO_PREVIEW, VIDEO_TRANSCODE, VIDEO_FULL] :: StagesOf(kind) == Wanted(Some(p)))
  {
    hide Word, CoverToMap, PreviewToMap, TranscodeToMap, FullToMap, StagesOf, Wanted;
    if !IsDefaultVideoPipeline(p) {
      WantedStages(p);
      forall kind <- [VIDEO_COVER, VIDEO_PREVIEW, VIDEO_TRANSCODE, VIDEO_FULL]
        ensures (CoverWanted in StagesOf(kind) <==> kind == VIDEO_COVER || kind == VIDEO_FULL) &&
                (PreviewWanted in StagesOf(kind) <==> kind == VIDEO_PREVIEW || kind == VIDEO_FULL) &&
                (HlsWanted in StagesOf(kind) <==> kind == VIDEO_TRANSCODE || kind == VIDEO_FULL)
      {
        StagesRun(kind);
      }
      var kinds := [VIDEO_COVER, VIDEO_PREVIEW, VIDEO_TRANSCODE, VIDEO_FULL];
      assert kinds[0] in kinds && kinds[1] in kinds && kinds[2] in kinds && kinds[3] in kinds;
      SameStages(StagesOf(VIDEO_COVER), Wanted(Some(p)));
      SameStages(StagesOf(VIDEO_PREVIEW), Wanted(Some(p)));
      SameStages(StagesOf(VIDEO_TRANSCODE), Wanted(Some(p)));
      SameStages(StagesOf(VIDEO_FULL), Wanted(Some(p)));
    }
  }

  lemma WantedStages(p: Pipeline)
    requires !IsDefaultVideoPipeline(p)
    ensures CoverWanted in Wanted(Some(p)) <==> p.cover.Some? && p.cover.value.enabled
    ensures PreviewWanted in Wanted(Some(p)) <==> p.preview.Some? && p.preview.value.enabled
    ensures HlsWanted in Wanted(Some(p)) <==> Packages(p)
  {
  }

  lemma StagesRun(kind: string)
    requires kind in [VIDEO_COVER, VIDEO_PREVIEW, VIDEO_TRANSCODE, VIDEO_FULL]
    ensures CoverWanted in StagesOf(kind) <==> kind == VIDEO_COVER || kind == VIDEO_FULL
    ensures PreviewWanted in StagesOf(kind) <==> kind == VIDEO_PREVIEW || kind == VIDEO_FULL
    ensures HlsWanted in StagesOf(kind) <==> kind == VIDEO_TRANSCODE || kind == VIDEO_FULL
  {
  }

  lemma SameStages(a: set<Stage>, b: set<Stage>)
    ensures a == b <==> (CoverWanted in a <==> CoverWanted in b) && (PreviewWanted in a <==> PreviewWanted in b) && (HlsWanted in a <==> HlsWanted in b)
  {
    if (CoverWanted in a <==> CoverWanted in b) && (PreviewWanted in a <==> PreviewWanted in b) && (HlsWanted in a <==> HlsWanted in b) {
      forall stage: Stage
        ensures stage in a <==> stage in b
      {
        match stage
        case CoverWanted =>
        case PreviewWanted =>
        case HlsWanted =>
      }
      assert a == b;
    }
  }

  lemma FullMapInjective(f: FullOptions, g: FullOptions)
    requires FullToMap(f) == FullToMap(g)
    ensures f == g
  {
    hide FullToMap, DecodeFull;
    FullRoundTrip(f);
    FullRoundTrip(g);
  }

  /** A full pipeline shares the fingerprint of the default pipeline exactly when all of its parameters are left at
      zero. */
  lemma DefaultFullFingerprint(p: Pipeline, options: Map, hash: string, source: string, callbackURL: string)
    requires !IsDefaultVideoPipeline(p) && BuildStructuredVideoRequest(Some(p)) == Ok((VIDEO_FULL, options))
    ensures var built := Canonicalize(Request(VIDEO_FULL, hash, source, options, callbackURL));
            var plain := Canonicalize(Request(VIDEO_FULL, hash, source, map[], callbackURL));
            built.Ok? && plain.Ok? &&
            (FingerprintOf(built.value) == FingerprintOf(plain.value) <==>
             p.cover.value.timestampSec == 0.0 && p.preview.value.options == NO_PREVIEW && !Encrypts(p))
  {
    hide DecodeAudio, DecodeCover, DecodePreview, DecodeTranscode, CoverToMap, PreviewToMap, TranscodeToMap, FullToMap, Word, DecodeFull;
    BuiltVideoRunsWhatIsWanted(p);
    var full := FullOptions(Some(CoverOptions(p.cover.value.timestampSec)), Some(p.preview.value.options),
                            Some(TranscodeOptions(Encrypts(p))));
    FullRoundTrip(full);
    EmptyFull();
    if FullToMap(NormalFull(full)) == FullToMap(FullOptions(None, None, None)) {
      FullMapInjective(NormalFull(full), FullOptions(None, None, None));
    }
  }

  lemma EmptyFull()
    ensures DecodeFull(map[]) == Ok(FullOptions(None, None, None))
  {
  }
}
