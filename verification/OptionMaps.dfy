/** Job options as JSON maps, and the typed records that are read from and written to them. */
module OptionMaps {
  import opened Wrappers

  datatype Json = Null | Bool(b: bool) | Num(n: real) | Str(s: string) | Arr(items: seq<Json>) | Obj(fields: map<string, Json>)

  type Map = map<string, Json>

  datatype CoverOptions = CoverOptions(timestampSec: real)

  datatype PreviewOptions = PreviewOptions(startSec: real, duration: real, width: int, fps: int, format: string)

  datatype TranscodeOptions = TranscodeOptions(encrypt: bool)

  datatype AudioOptions = AudioOptions(hls: bool, encrypt: bool, mp3: bool, flac: bool, waveform: bool,
                                       waveformBins: int, mp3Bitrate: string)

  datatype FullOptions = FullOptions(cover: Option<CoverOptions>, preview: Option<PreviewOptions>,
                                     transcode: Option<TranscodeOptions>)

  const NO_COVER := CoverOptions(0.0)
  const NO_PREVIEW := PreviewOptions(0.0, 0.0, 0, 0, "")
  const NO_TRANSCODE := TranscodeOptions(false)
  const NO_AUDIO := AudioOptions(false, false, false, false, false, 0, "")

  // ---- Fields ----

  /** A missing field reads like null. */
  function Field(m: Map, key: string): Json {
    if key in m then m[key] else Null
  }

  predicate IsBool(j: Json) { j.Null? || j.Bool? }
  predicate IsReal(j: Json) { j.Null? || j.Num? }
  predicate IsInt(j: Json) { j.Null? || (j.Num? && j.n.Floor as real == j.n) }
  predicate IsStr(j: Json) { j.Null? || j.Str? }

  function AsBool(j: Json): bool { j.Bool? && j.b }
  function AsReal(j: Json): real { if j.Num? then j.n else 0.0 }
  function AsInt(j: Json): int { if j.Num? then j.n.Floor else 0 }
  function AsStr(j: Json): string { if j.Str? then j.s else "" }

  /** What an omitempty field leaves out. */
  predicate Empty(j: Json) {
    j == Null || j == Bool(false) || j == Num(0.0) || j == Str("")
  }

  function OmitEmpty(m: Map): (r: Map)
    ensures forall k :: k in r <==> k in m && !Empty(m[k])
    ensures forall k | k in r :: r[k] == m[k]
  {
    map k | k in m && !Empty(m[k]) :: m[k]
  }

  lemma FieldOfOmitEmpty(m: Map, key: string)
    requires key in m
    ensures Field(OmitEmpty(m), key) == if Empty(m[key]) then Null else m[key]
  {
  }

  // ---- Records ----

  function CoverToMap(o: CoverOptions): Map {
    OmitEmpty(map["timestamp_sec" := Num(o.timestampSec)])
  }

  function DecodeCover(m: Map): Result<CoverOptions> {
    if m.Keys <= {"timestamp_sec"} && IsReal(Field(m, "timestamp_sec"))
    then Ok(CoverOptions(AsReal(Field(m, "timestamp_sec"))))
    else Err
  }

  function PreviewToMap(o: PreviewOptions): Map {
    OmitEmpty(map["start_sec" := Num(o.startSec), "duration" := Num(o.duration), "width" := Num(o.width as real),
                  "fps" := Num(o.fps as real), "format" := Str(o.format)])
  }

  function DecodePreview(m: Map): Result<PreviewOptions> {
    if m.Keys <= {"start_sec", "duration", "width", "fps", "format"} &&
       IsReal(Field(m, "start_sec")) && IsReal(Field(m, "duration")) &&
       IsInt(Field(m, "width")) && IsInt(Field(m, "fps")) && IsStr(Field(m, "format"))
    then Ok(PreviewOptions(AsReal(Field(m, "start_sec")), AsReal(Field(m, "duration")),
                           AsInt(Field(m, "width")), AsInt(Field(m, "fps")), AsStr(Field(m, "format"))))
    else Err
  }

  function TranscodeToMap(o: TranscodeOptions): Map {
    OmitEmpty(map["encrypt" := Bool(o.encrypt)])
  }

  function DecodeTranscode(m: Map): Result<TranscodeOptions> {
    if m.Keys <= {"encrypt"} && IsBool(Field(m, "encrypt"))
    then Ok(TranscodeOptions(AsBool(Field(m, "encrypt"))))
    else Err
  }

  function AudioToMap(o: AudioOptions): Map {
    OmitEmpty(map["hls" := Bool(o.hls), "encrypt" := Bool(o.encrypt), "mp3" := Bool(o.mp3), "flac" := Bool(o.flac),
                  "waveform" := Bool(o.waveform), "waveform_bins" := Num(o.waveformBins as real),
                  "mp3_bitrate" := Str(o.mp3Bitrate)])
  }

  const AUDIO_KEYS := {"hls", "encrypt", "mp3", "flac", "waveform", "waveform_bins", "mp3_bitrate"}

  predicate AudioFields(m: Map) {
    m.Keys <= AUDIO_KEYS &&
    IsBool(Field(m, "hls")) && IsBool(Field(m, "encrypt")) && IsBool(Field(m, "mp3")) && IsBool(Field(m, "flac")) &&
    IsBool(Field(m, "waveform")) && IsInt(Field(m, "waveform_bins")) && IsStr(Field(m, "mp3_bitrate"))
  }

  function DecodeAudio(m: Map): Result<AudioOptions> {
    if AudioFields(m)
    then Ok(AudioOptions(AsBool(Field(m, "hls")), AsBool(Field(m, "encrypt")), AsBool(Field(m, "mp3")),
                         AsBool(Field(m, "flac")), AsBool(Field(m, "waveform")),
                         AsInt(Field(m, "waveform_bins")), AsStr(Field(m, "mp3_bitrate"))))
    else Err
  }

  /** A nil pointer is null, and a pointer to a record is an object even when all of its fields are left out. */
  function FullToMap(o: FullOptions): Map {
    OmitEmpty(map["cover" := if o.cover.Some? then Obj(CoverToMap(o.cover.value)) else Null,
                  "preview" := if o.preview.Some? then Obj(PreviewToMap(o.preview.value)) else Null,
                  "transcode" := if o.transcode.Some? then Obj(TranscodeToMap(o.transcode.value)) else Null])
  }

  function DecodeFull(m: Map): Result<FullOptions> {
    if m.Keys <= {"cover", "preview", "transcode"} then
      var cover, preview, transcode := Field(m, "cover"), Field(m, "preview"), Field(m, "transcode");
      if (cover.Null? || (cover.Obj? && DecodeCover(cover.fields).Ok?)) &&
         (preview.Null? || (preview.Obj? && DecodePreview(preview.fields).Ok?)) &&
         (transcode.Null? || (transcode.Obj? && DecodeTranscode(transcode.fields).Ok?))
      then Ok(FullOptions(if cover.Null? then None else Some(DecodeCover(cover.fields).value),
                          if preview.Null? then None else Some(DecodePreview(preview.fields).value),
                          if transcode.Null? then None else Some(DecodeTranscode(transcode.fields).value)))
      else Err
    else Err
  }

  // ---- What is read ----

  predicate HasTrue(m: Map, key: string) {
    key in m && m[key] == Bool(true)
  }

  /** The number under a key; zero if there is none. */
  function NumberOf(m: Map, key: string): real {
    if key in m && m[key].Num? then m[key].n else 0.0
  }

  function TextOf(m: Map, key: string): string {
    if key in m && m[key].Str? then m[key].s else ""
  }

  lemma AudioIsRead(m: Map)
    requires DecodeAudio(m).Ok?
    ensures var o := DecodeAudio(m).value;
            (o.hls <==> HasTrue(m, "hls")) && (o.encrypt <==> HasTrue(m, "encrypt")) && (o.mp3 <==> HasTrue(m, "mp3")) &&
            (o.flac <==> HasTrue(m, "flac")) && (o.waveform <==> HasTrue(m, "waveform")) &&
            o.waveformBins as real == NumberOf(m, "waveform_bins") && o.mp3Bitrate == TextOf(m, "mp3_bitrate")
  {
  }

  lemma VideoPartsAreRead(m: Map)
    ensures DecodeCover(m).Ok? ==> DecodeCover(m).value.timestampSec == NumberOf(m, "timestamp_sec")
    ensures DecodePreview(m).Ok? ==>
              var o := DecodePreview(m).value;
              o.startSec == NumberOf(m, "start_sec") && o.duration == NumberOf(m, "duration") &&
              o.width as real == NumberOf(m, "width") && o.fps as real == NumberOf(m, "fps") && o.format == TextOf(m, "format")
    ensures DecodeTranscode(m).Ok? ==> (DecodeTranscode(m).value.encrypt <==> HasTrue(m, "encrypt"))
  {
  }

  /** Decoding is strict: an unknown name is refused in the options of every job type. */
  lemma UnknownNamesAreRefused(m: Map, key: string)
    requires key in m
    ensures key !in {"hls", "encrypt", "mp3", "flac", "waveform", "waveform_bins", "mp3_bitrate"} ==> DecodeAudio(m).Err?
    ensures key != "timestamp_sec" ==> DecodeCover(m).Err?
    ensures key !in {"start_sec", "duration", "width", "fps", "format"} ==> DecodePreview(m).Err?
    ensures key != "encrypt" ==> DecodeTranscode(m).Err?
    ensures key !in {"cover", "preview", "transcode"} ==> DecodeFull(m).Err?
  {
    assert key in m.Keys;
  }

  /** Zero values are not written. */
  lemma ZerosAreLeftOut()
    ensures AudioToMap(AudioOptions(false, false, false, false, false, 0, "")) == map[]
    ensures CoverToMap(CoverOptions(0.0)) == map[]
    ensures PreviewToMap(PreviewOptions(0.0, 0.0, 0, 0, "")) == map[]
    ensures TranscodeToMap(TranscodeOptions(false)) == map[]
    ensures FullToMap(FullOptions(None, None, None)) == map[]
  {
  }

  // ---- Reading back what was written ----

  lemma CoverRoundTrip(o: CoverOptions)
    ensures DecodeCover(CoverToMap(o)) == Ok(o)
  {
    var m := map["timestamp_sec" := Num(o.timestampSec)];
    FieldOfOmitEmpty(m, "timestamp_sec");
  }

  lemma TranscodeRoundTrip(o: TranscodeOptions)
    ensures DecodeTranscode(TranscodeToMap(o)) == Ok(o)
  {
    var m := map["encrypt" := Bool(o.encrypt)];
    FieldOfOmitEmpty(m, "encrypt");
  }

  lemma PreviewRoundTrip(o: PreviewOptions)
    ensures DecodePreview(PreviewToMap(o)) == Ok(o)
  {
    var m := map["start_sec" := Num(o.startSec), "duration" := Num(o.duration), "width" := Num(o.width as real),
                 "fps" := Num(o.fps as real), "format" := Str(o.format)];
    FieldOfOmitEmpty(m, "start_sec");
    FieldOfOmitEmpty(m, "duration");
    FieldOfOmitEmpty(m, "width");
    FieldOfOmitEmpty(m, "fps");
    FieldOfOmitEmpty(m, "format");
  }

  lemma AudioFlagsOf(o: AudioOptions)
    ensures var m := AudioToMap(o);
            m.Keys <= AUDIO_KEYS &&
            IsBool(Field(m, "hls")) && AsBool(Field(m, "hls")) == o.hls &&
            IsBool(Field(m, "encrypt")) && AsBool(Field(m, "encrypt")) == o.encrypt &&
            IsBool(Field(m, "mp3")) && AsBool(Field(m, "mp3")) == o.mp3 &&
            IsBool(Field(m, "flac")) && AsBool(Field(m, "flac")) == o.flac
  {
  }

  lemma AudioDetailsOf(o: AudioOptions)
    ensures var m := AudioToMap(o);
            IsBool(Field(m, "waveform")) && AsBool(Field(m, "waveform")) == o.waveform &&
            IsInt(Field(m, "waveform_bins")) && AsInt(Field(m, "waveform_bins")) == o.waveformBins &&
            IsStr(Field(m, "mp3_bitrate")) && AsStr(Field(m, "mp3_bitrate")) == o.mp3Bitrate
  {
  }

  lemma AudioRoundTrip(o: AudioOptions)
    ensures DecodeAudio(AudioToMap(o)) == Ok(o)
  {
    hide AudioToMap, Field, AsBool, AsInt, AsStr, IsBool, IsInt, IsStr;
    AudioFlagsOf(o);
    AudioDetailsOf(o);
  }

  lemma FullRoundTrip(o: FullOptions)
    ensures DecodeFull(FullToMap(o)) == Ok(o)
  {
    var m := map["cover" := if o.cover.Some? then Obj(CoverToMap(o.cover.value)) else Null,
                 "preview" := if o.preview.Some? then Obj(PreviewToMap(o.preview.value)) else Null,
                 "transcode" := if o.transcode.Some? then Obj(TranscodeToMap(o.transcode.value)) else Null];
    FieldOfOmitEmpty(m, "cover");
    FieldOfOmitEmpty(m, "preview");
    FieldOfOmitEmpty(m, "transcode");
    if o.cover.Some? {
      CoverRoundTrip(o.cover.value);
    }
    if o.preview.Some? {
      PreviewRoundTrip(o.preview.value);
    }
    if o.transcode.Some? {
      TranscodeRoundTrip(o.transcode.value);
    }
  }
}
