/** Job requests: how they are built, validated, brought to a canonical form and turned into queue payloads. */
module Requests {
  import opened Wrappers
  import opened OptionMaps
  import Text
  import Waveform

  const IMAGE_THUMBNAIL := "image:thumbnail"
  const AUDIO_TRANSCODE := "audio:transcode"
  const VIDEO_COVER := "video:cover"
  const VIDEO_PREVIEW := "video:preview"
  const VIDEO_TRANSCODE := "video:transcode"
  const VIDEO_FULL := "video:full"

  datatype Request = Request(kind: string, hash: string, source: string, options: Map, callbackURL: string)

  datatype Options = Audio(audio: AudioOptions) | Cover(cover: CoverOptions) | Preview(preview: PreviewOptions)
                   | Transcode(transcode: TranscodeOptions) | Full(full: FullOptions)

  function KindOf(o: Options): string {
    match o
    case Audio(_) => AUDIO_TRANSCODE
    case Cover(_) => VIDEO_COVER
    case Preview(_) => VIDEO_PREVIEW
    case Transcode(_) => VIDEO_TRANSCODE
    case Full(_) => VIDEO_FULL
  }

  predicate Structured(kind: string) {
    kind in {AUDIO_TRANSCODE, VIDEO_COVER, VIDEO_PREVIEW, VIDEO_TRANSCODE, VIDEO_FULL}
  }

  function Lift<T>(r: Result<T>, f: T -> Options): Result<Options> {
    match r
    case Ok(value) => Ok(f(value))
    case Err => Err
  }

  /** The strict decoding of the options of a job type. */
  function Parse(kind: string, m: Map): Result<Options> {
    if kind == AUDIO_TRANSCODE then Lift(DecodeAudio(m), a => Audio(a))
    else if kind == VIDEO_COVER then Lift(DecodeCover(m), c => Cover(c))
    else if kind == VIDEO_PREVIEW then Lift(DecodePreview(m), p => Preview(p))
    else if kind == VIDEO_TRANSCODE then Lift(DecodeTranscode(m), t => Transcode(t))
    else if kind == VIDEO_FULL then Lift(DecodeFull(m), f => Full(f))
    else Err
  }

  /** structToOptionsMap */
  function ToMap(o: Options): Map {
    match o
    case Audio(a) => AudioToMap(a)
    case Cover(c) => CoverToMap(c)
    case Preview(p) => PreviewToMap(p)
    case Transcode(t) => TranscodeToMap(t)
    case Full(f) => FullToMap(f)
  }

  lemma RoundTrip(o: Options)
    ensures Parse(KindOf(o), ToMap(o)) == Ok(o)
  {
    hide DecodeAudio, DecodeCover, DecodePreview, DecodeTranscode, DecodeFull;
    match o
    case Audio(a) => AudioRoundTrip(a);
    case Cover(c) => CoverRoundTrip(c);
    case Preview(p) => PreviewRoundTrip(p);
    case Transcode(t) => TranscodeRoundTrip(t);
    case Full(f) => FullRoundTrip(f);
  }

  lemma ParseKind(kind: string, m: Map)
    ensures Parse(kind, m).Ok? ==> KindOf(Parse(kind, m).value) == kind
    ensures Parse(kind, m).Ok? ==> Structured(kind)
  {
  }

  // ---- Canonical options ----

  /** Nothing is asked for explicitly. */
  predicate AsksNothing(o: AudioOptions) {
    !o.hls && !o.mp3 && !o.flac && !o.waveform
  }

  predicate Blank(s: string) {
    Text.TrimSpace(s) == ""
  }

  /** The canonical audio options: all outputs when none is asked for, and a parameter exactly for the output it is of. */
  function Normal(o: AudioOptions): AudioOptions {
    var all := AsksNothing(o);
    AudioOptions(
      o.hls || all, o.encrypt, o.mp3 || all, o.flac || all, o.waveform || all,
      if !o.waveform && !all then 0 else if o.waveformBins > 0 then o.waveformBins else 2048,
      if !o.mp3 && !all then "" else if Blank(o.mp3Bitrate) then "320k" else o.mp3Bitrate)
  }

  /** An output is wanted when it is asked for, or when no output is. */
  predicate Wants(o: AudioOptions, asked: bool) {
    asked || (!o.hls && !o.mp3 && !o.flac && !o.waveform)
  }

  /** What canonicalising keeps of the options that were asked for, and what it fills in. */
  predicate KeepsAsked(asked: AudioOptions, o: AudioOptions) {
    && o.encrypt == asked.encrypt
    && (o.hls <==> Wants(asked, asked.hls)) && (o.mp3 <==> Wants(asked, asked.mp3))
    && (o.flac <==> Wants(asked, asked.flac)) && (o.waveform <==> Wants(asked, asked.waveform))
    && (o.waveform && asked.waveformBins > 0 ==> o.waveformBins == asked.waveformBins)
    && (o.waveform && asked.waveformBins <= 0 ==> o.waveformBins == 2048)
    && (!o.waveform ==> o.waveformBins == 0)
    && (o.mp3 && !Blank(asked.mp3Bitrate) ==> o.mp3Bitrate == asked.mp3Bitrate)
    && (o.mp3 && Blank(asked.mp3Bitrate) ==> o.mp3Bitrate == "320k")
    && (!o.mp3 ==> o.mp3Bitrate == "")
  }

  /** The canonicaliser of the request package. */
  method CanonicalizeAudioTranscodeOptions(opts: AudioOptions) returns (o: AudioOptions)
    ensures o == Normal(opts)
    ensures KeepsAsked(opts, o)
  {
    o := opts;
    if !o.hls && !o.mp3 && !o.flac && !o.waveform {
      o := o.(hls := true);
      o := o.(mp3 := true);
      o := o.(flac := true);
      o := o.(waveform := true);
    }
    if o.waveform && o.waveformBins <= 0 {
      o := o.(waveformBins := 2048);
    }
    if !o.waveform {
      o := o.(waveformBins := 0);
    }
    if o.mp3 && Blank(o.mp3Bitrate) {
      o := o.(mp3Bitrate := "320k");
    }
    if !o.mp3 {
      o := o.(mp3Bitrate := "");
    }
  }

  /** What encryption forces before the handler brings the options to their canonical form. */
  function Forced(o: AudioOptions): AudioOptions {
    if o.encrypt then o.(hls := true, mp3 := false, flac := false) else o
  }

  /** The canonicaliser of the job handler. */
  method HandlerCanonicalizeAudio(opts: AudioOptions) returns (o: AudioOptions)
    ensures o == Normal(Forced(opts))
    ensures !opts.encrypt ==> KeepsAsked(opts, o)
    ensures opts.encrypt ==> KeepsAsked(AudioOptions(true, true, false, false, opts.waveform, opts.waveformBins, ""), o)
  {
    o := opts;
    if o.encrypt {
      o := o.(hls := true);
      o := o.(mp3 := false);
      o := o.(flac := false);
    }
    if !o.hls && !o.mp3 && !o.flac && !o.waveform {
      o := o.(hls := true);
      o := o.(mp3 := true);
      o := o.(flac := true);
      o := o.(waveform := true);
    }
    if o.waveform && o.waveformBins <= 0 {
      o := o.(waveformBins := Waveform.DEFAULT_BINS);
    }
    if !o.waveform {
      o := o.(waveformBins := 0);
    }
    if o.mp3 && Blank(o.mp3Bitrate) {
      o := o.(mp3Bitrate := "320k");
    }
    if !o.mp3 {
      o := o.(mp3Bitrate := "");
    }
  }

  lemma NormalKeeps(o: AudioOptions)
    ensures KeepsAsked(o, Normal(o))
  {
    hide Blank;
  }

  lemma BitrateIsNotBlank()
    ensures !Blank("320k")
  {
    Text.TrimSolid("320k");
  }

  /** The canonical form is stable, asks for something, and holds exactly the parameters of what it asks for. */
  lemma NormalShape(o: AudioOptions)
    ensures var n := Normal(o);
            Normal(n) == n && !AsksNothing(n) &&
            (if n.waveform then n.waveformBins > 0 else n.waveformBins == 0) &&
            (if n.mp3 then !Blank(n.mp3Bitrate) else n.mp3Bitrate == "")
  {
    hide Blank;
    BitrateIsNotBlank();
  }

  /** What validation demands of audio options in canonical form. */
  predicate EncryptionAllowed(o: AudioOptions) {
    o.encrypt ==> o.hls && !o.mp3 && !o.flac
  }

  /** The handler's canonicaliser leaves canonical options as they are exactly when validation accepts their use of
      encryption. */
  lemma CanonicalisersAgreeIff(o: AudioOptions)
    ensures Normal(Forced(Normal(o))) == Normal(o) <==> EncryptionAllowed(Normal(o))
  {
    NormalShape(o);
  }

  /** Encryption alone asks for every output, downloads included, and the handler would drop them again. */
  lemma EncryptionAloneDisagrees()
    ensures var o := NO_AUDIO.(encrypt := true);
            !EncryptionAllowed(Normal(o)) && Normal(o).mp3 && !Normal(Forced(Normal(o))).mp3
  {
  }

  function NormalFull(o: FullOptions): FullOptions {
    FullOptions(if o.cover == Some(NO_COVER) then None else o.cover,
                if o.preview == Some(NO_PREVIEW) then None else o.preview,
                if o.transcode == Some(NO_TRANSCODE) then None else o.transcode)
  }

  method CanonicalizeVideoFullOptions(opts: FullOptions) returns (o: FullOptions)
    ensures o == NormalFull(opts)
    ensures o.cover == if opts.cover == Some(CoverOptions(0.0)) then None else opts.cover
    ensures o.preview == if opts.preview == Some(PreviewOptions(0.0, 0.0, 0, 0, "")) then None else opts.preview
    ensures o.transcode == if opts.transcode == Some(TranscodeOptions(false)) then None else opts.transcode
  {
    o := opts;
    if o.cover.Some? && o.cover.value == NO_COVER {
      o := o.(cover := None);
    }
    if o.preview.Some? && o.preview.value == NO_PREVIEW {
      o := o.(preview := None);
    }
    if o.transcode.Some? && o.transcode.value == NO_TRANSCODE {
      o := o.(transcode := None);
    }
  }

  function NormalOptions(o: Options): (r: Options)
    ensures KindOf(r) == KindOf(o)
  {
    match o
    case Audio(a) => Audio(Normal(a))
    case Full(f) => Full(NormalFull(f))
    case _ => o
  }

  lemma NormalOptionsIdempotent(o: Options)
    ensures NormalOptions(NormalOptions(o)) == NormalOptions(o)
  {
    if o.Audio? {
      NormalShape(o.audio);
    }
  }

  /** Canonicalize: thumbnail options and unknown types pass through. */
  function Canonicalize(r: Request): Result<Request> {
    if !Structured(r.kind) then Ok(r)
    else
      var parsed := Parse(r.kind, r.options);
      if parsed.Err? then Err else Ok(r.(options := ToMap(NormalOptions(parsed.value))))
  }

  /** Canonical options parse back to the canonical record. */
  lemma CanonicalParses(r: Request, c: Request)
    requires Canonicalize(r) == Ok(c) && Structured(r.kind)
    ensures Parse(r.kind, r.options).Ok?
    ensures c.kind == r.kind && c.hash == r.hash && c.source == r.source
    ensures Parse(c.kind, c.options) == Ok(NormalOptions(Parse(r.kind, r.options).value))
    ensures c.options == ToMap(NormalOptions(Parse(r.kind, r.options).value))
  {
    hide Parse, ToMap;
    ParseKind(r.kind, r.options);
    RoundTrip(NormalOptions(Parse(r.kind, r.options).value));
  }

  /** The canonical request keeps what the request asked for. */
  lemma CanonicalKeepsAsked(r: Request)
    requires r.kind == "audio:transcode" && DecodeAudio(r.options).Ok?
    ensures Canonicalize(r).Ok?
    ensures var c := Canonicalize(r).value;
            c.(options := r.options) == r && DecodeAudio(c.options).Ok? &&
            KeepsAsked(DecodeAudio(r.options).value, DecodeAudio(c.options).value)
  {
    hide DecodeAudio, AudioToMap, Normal, KeepsAsked;
    var asked := DecodeAudio(r.options).value;
    NormalKeeps(asked);
    AudioRoundTrip(Normal(asked));
  }

  lemma CanonicalizeIdempotent(r: Request)
    requires Canonicalize(r).Ok?
    ensures Canonicalize(Canonicalize(r).value) == Canonicalize(r)
  {
    hide Parse, ToMap;
    if Structured(r.kind) {
      CanonicalParses(r, Canonicalize(r).value);
      NormalOptionsIdempotent(Parse(r.kind, r.options).value);
    }
  }

  // ---- Validation ----

  predicate ThumbnailOutput(j: Json) {
    j.Null? ||
    (j.Obj? && j.fields.Keys <= {"variant", "width", "height", "format"} && IsStr(Field(j.fields, "variant")) &&
     IsInt(Field(j.fields, "width")) && IsInt(Field(j.fields, "height")) && IsStr(Field(j.fields, "format")))
  }

  predicate ThumbnailOptions(m: Map) {
    m.Keys <= {"outputs"} &&
    var outputs := Field(m, "outputs");
    outputs.Null? || (outputs.Arr? && forall i | 0 <= i < |outputs.items| :: ThumbnailOutput(outputs.items[i]))
  }

  predicate ValidOptions(kind: string, m: Map) {
    if kind == IMAGE_THUMBNAIL then ThumbnailOptions(m)
    else
      var parsed := Parse(kind, m);
      parsed.Ok? && (parsed.value.Audio? ==> EncryptionAllowed(Normal(parsed.value.audio)))
  }

  /** Validate; whether a callback URL is acceptable is given. */
  predicate Validate(r: Request, callbackAccepted: string -> bool) {
    (r.kind == IMAGE_THUMBNAIL || Structured(r.kind)) && r.hash != "" && r.source != "" &&
    (r.callbackURL == "" || callbackAccepted(r.callbackURL)) && ValidOptions(r.kind, r.options)
  }

  /** What validation refuses: an unknown type, an empty hash or source, a callback that is not acceptable, options of a
      structured type that do not decode, and thumbnail options other than a list of outputs. */
  lemma RefusedIf(r: Request, callbackAccepted: string -> bool)
    requires || r.kind !in {"image:thumbnail", "audio:transcode", "video:cover", "video:preview", "video:transcode", "video:full"}
             || (r.kind == "image:thumbnail" && exists key <- r.options :: key != "outputs")
             || (r.kind == "image:thumbnail" && "outputs" in r.options &&
                 !r.options["outputs"].Null? && !r.options["outputs"].Arr?)
             || r.hash == "" || r.source == "" || (r.callbackURL != "" && !callbackAccepted(r.callbackURL))
             || (r.kind == "audio:transcode" && DecodeAudio(r.options).Err?)
             || (r.kind == "video:cover" && DecodeCover(r.options).Err?)
             || (r.kind == "video:preview" && DecodePreview(r.options).Err?)
             || (r.kind == "video:transcode" && DecodeTranscode(r.options).Err?)
             || (r.kind == "video:full" && DecodeFull(r.options).Err?)
    ensures !Validate(r, callbackAccepted)
  {
    if r.kind == "image:thumbnail" && exists key <- r.options :: key != "outputs" {
      var key :| key in r.options && key != "outputs";
      assert key in r.options.Keys;
    }
  }

  /** Beyond that a video request is always valid, and an audio request exactly when its outputs do not mix encryption
      with downloads; wanted are all outputs when none is asked for. */
  lemma ValidIf(r: Request, callbackAccepted: string -> bool)
    requires r.hash != "" && r.source != "" && (r.callbackURL == "" || callbackAccepted(r.callbackURL))
    ensures r.kind == "video:cover" && DecodeCover(r.options).Ok? ==> Validate(r, callbackAccepted)
    ensures r.kind == "video:preview" && DecodePreview(r.options).Ok? ==> Validate(r, callbackAccepted)
    ensures r.kind == "video:transcode" && DecodeTranscode(r.options).Ok? ==> Validate(r, callbackAccepted)
    ensures r.kind == "video:full" && DecodeFull(r.options).Ok? ==> Validate(r, callbackAccepted)
    ensures r.kind == "audio:transcode" && DecodeAudio(r.options).Ok? ==>
              var o := DecodeAudio(r.options).value;
              (Validate(r, callbackAccepted) <==> o.encrypt ==> o.hls && !o.mp3 && !o.flac)
  {
    hide DecodeAudio, DecodeCover, DecodePreview, DecodeTranscode, DecodeFull, Blank;
  }

  /** A valid request has a canonical form, and it is valid again. */
  lemma ValidRequestsCanonicalize(r: Request, callbackAccepted: string -> bool)
    requires Validate(r, callbackAccepted)
    ensures Canonicalize(r).Ok? && Validate(Canonicalize(r).value, callbackAccepted)
  {
    hide Parse, ToMap;
    if Structured(r.kind) {
      CanonicalParses(r, Canonicalize(r).value);
      NormalOptionsIdempotent(Parse(r.kind, r.options).value);
    }
  }

  // ---- Payloads and fingerprints ----

  /** The options that enqueueTask puts into the payload of a task. */
  function Payload(r: Request): Result<Options> {
    var parsed := Parse(r.kind, r.options);
    if parsed.Err? then Err
    else
      match parsed.value
      case Audio(a) => Ok(Audio(Normal(Forced(a))))
      case Full(f) => Ok(Full(NormalFull(f)))
      case o => Ok(o)
  }

  /** What the request fingerprint hashes. */
  datatype Fingerprint = Fingerprint(kind: string, hash: string, source: string, options: Map)

  function FingerprintOf(r: Request): Fingerprint {
    Fingerprint(r.kind, r.hash, r.source, r.options)
  }

  /** The queued options are the fingerprinted ones exactly when validation would accept them. */
  lemma PayloadIsFingerprinted(r: Request, c: Request)
    requires Canonicalize(r) == Ok(c) && Structured(r.kind)
    ensures Payload(c).Ok?
    ensures ToMap(Payload(c).value) == FingerprintOf(c).options <==> ValidOptions(r.kind, r.options)
  {
    hide Parse, ToMap, Normal, EncryptionAllowed;
    CanonicalParses(r, c);
    var parsed := Parse(r.kind, r.options).value;
    ParseKind(r.kind, r.options);
    NormalOptionsIdempotent(parsed);
    RoundTrip(NormalOptions(parsed));
    RoundTrip(Payload(c).value);
    if parsed.Audio? {
      CanonicalisersAgreeIff(parsed.audio);
    }
  }

  /** Requests share their fingerprint exactly when type, hash, source and canonical options agree. */
  lemma SameFingerprintIff(r: Request, q: Request)
    requires Canonicalize(r).Ok? && Canonicalize(q).Ok? && Structured(r.kind) && Structured(q.kind)
    ensures Parse(r.kind, r.options).Ok? && Parse(q.kind, q.options).Ok?
    ensures FingerprintOf(Canonicalize(r).value) == FingerprintOf(Canonicalize(q).value) <==>
            r.kind == q.kind && r.hash == q.hash && r.source == q.source &&
            NormalOptions(Parse(r.kind, r.options).value) == NormalOptions(Parse(q.kind, q.options).value)
  {
    hide Parse, ToMap, NormalOptions;
    CanonicalParses(r, Canonicalize(r).value);
    CanonicalParses(q, Canonicalize(q).value);
  }

  /** The options ask for the same outputs with the same parameters, where those of outputs that are not wanted do not
      matter and those that are left out have their defaults. */
  predicate SameParameters(a: AudioOptions, b: AudioOptions) {
    && a.encrypt == b.encrypt
    && (Wants(a, a.hls) <==> Wants(b, b.hls)) && (Wants(a, a.mp3) <==> Wants(b, b.mp3))
    && (Wants(a, a.flac) <==> Wants(b, b.flac)) && (Wants(a, a.waveform) <==> Wants(b, b.waveform))
    && (Wants(a, a.waveform) ==>
          (if a.waveformBins > 0 then a.waveformBins else 2048) == (if b.waveformBins > 0 then b.waveformBins else 2048))
    && (Wants(a, a.mp3) ==>
          (if Blank(a.mp3Bitrate) then "320k" else a.mp3Bitrate) == (if Blank(b.mp3Bitrate) then "320k" else b.mp3Bitrate))
  }

  /** Audio requests share their fingerprint exactly when they ask for the same of the same source. */
  lemma AudioFingerprintIff(r: Request, q: Request)
    requires r.kind == "audio:transcode" && q.kind == "audio:transcode"
    requires DecodeAudio(r.options).Ok? && DecodeAudio(q.options).Ok?
    ensures Canonicalize(r).Ok? && Canonicalize(q).Ok?
    ensures FingerprintOf(Canonicalize(r).value) == FingerprintOf(Canonicalize(q).value) <==>
            r.hash == q.hash && r.source == q.source &&
            SameParameters(DecodeAudio(r.options).value, DecodeAudio(q.options).value)
  {
    hide DecodeAudio, AudioToMap, Normal, SameParameters;
    SameFingerprintIff(r, q);
    var a, b := DecodeAudio(r.options).value, DecodeAudio(q.options).value;
    NormalTellsParameters(a, b);
  }

  lemma NormalTellsParameters(a: AudioOptions, b: AudioOptions)
    ensures Normal(a) == Normal(b) <==> SameParameters(a, b)
  {
    hide Blank, Normal;
    NormalKeeps(a);
    NormalKeeps(b);
  }

  /** The bit rate that is asked for is part of the fingerprint. */
  lemma BitratesAreApart(r: Request, q: Request)
    requires r == Request("audio:transcode", "h", "s", map["mp3" := Bool(true), "mp3_bitrate" := Str("128k")], "")
    requires q == r.(options := map["mp3" := Bool(true), "mp3_bitrate" := Str("320k")])
    ensures Canonicalize(r).Ok? && Canonicalize(q).Ok?
    ensures DecodeAudio(Canonicalize(r).value.options) == Ok(NO_AUDIO.(mp3 := true, mp3Bitrate := "128k"))
    ensures FingerprintOf(Canonicalize(r).value) != FingerprintOf(Canonicalize(q).value)
  {
    hide Canonicalize, FingerprintOf;
    Text.TrimSolid("128k");
    BitrateIsNotBlank();
    CanonicalKeepsAsked(r);
    AudioFingerprintIff(r, q);
  }
}
