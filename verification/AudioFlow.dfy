/** The stages of an audio:transcode job. */
module AudioFlow {
  import opened Wrappers
  import opened Media
  import Waveform

  datatype Stage = Source | Probe | Package | Downloads | Waveform

  datatype StageState = Pending | Ready | Failed(code: string) | Skipped(reason: string)

  type Stages = map<Stage, StageState>

  datatype Failure = Failure(stage: Stage, code: string)

  datatype Payload = Payload(hash: string, source: string, hls: bool, encrypt: bool, mp3: bool, flac: bool, waveform: bool,
                             waveformBins: int, mp3Bitrate: string)

  /** What an object in the media bucket holds. */
  datatype Content = Peaks(source: string, bins: int) | Packaged(source: string, encrypted: bool, key: string)
                   | Mp3(source: string, bitrate: string) | Flac(source: string) | Foreign(id: int)

  type Objects = map<string, Content>

  /** How the fallible steps of a run come out; hlsUploads counts the packaged files that are uploaded before one
      fails. */
  datatype Steps = Steps(
    download: bool, probe: bool, supported: bool,
    generate: bool, marshal: bool, waveformUpload: bool,
    encryption: bool, scratch: bool, tempDir: bool, package: bool, hlsUploads: nat,
    downloadDir: bool, mp3: Encoding, flac: Encoding)

  datatype Encoding = Encoding(encode: bool, upload: bool, stat: bool)

  /** The envelope of the outputs, updated while the job runs. */
  class ProcessResult {
    var stages: Stages
    var failure: Option<Failure>
    var waveform: Option<string>
    var streaming: Option<string>
    var encryption: bool
    var downloads: seq<string>

    constructor (p: Payload)
      ensures stages == Progressed(p, 0) && failure == None
      ensures waveform == None && streaming == None && !encryption && downloads == []
    {
      stages := map[Source := Pending, Probe := Pending, Package := ForEnabled(p.hls),
                    Downloads := ForEnabled(p.mp3 || p.flac), Waveform := ForEnabled(p.waveform)];
      failure, waveform, streaming, encryption, downloads := None, None, None, false, [];
    }

    method SkipPendingStages(reason: string)
      requires forall stage :: stage in stages
      modifies this`stages
      ensures stages == WithoutPending(old(stages), reason)
    {
      var all := [Source, Probe, Package, Downloads, Waveform];
      AllStages();
      for i := 0 to |all|
        invariant stages.Keys == old(stages).Keys
        invariant forall stage :: stage in all[..i] ==> stages[stage] == SkipOne(old(stages)[stage], reason)
        invariant forall stage :: stage !in all[..i] ==> stages[stage] == old(stages)[stage]
      {
        var stage := all[i];
        if stages[stage] == Pending {
          stages := stages[stage := Skipped(reason)];
        }
        assert all[..i + 1] == all[..i] + [stage];
      }
      assert all[..|all|] == all;
    }

    method MarkFailure(stage: Stage, code: string)
      modifies this`failure
      ensures failure == Some(Failure(stage, code))
    {
      failure := Some(Failure(stage, code));
    }

    /** Failing a stage; the stages that are still pending are skipped for a reason, if one is given. */
    method Fail(p: Payload, stage: Stage, code: string, reason: Option<string>)
      requires stages == Progressed(p, Order(stage))
      requires reason == SkipReason(stage)
      modifies this`stages, this`failure
      ensures stages == Ended(p, Some(Failure(stage, code))) && failure == Some(Failure(stage, code))
    {
      FailureEnds(p, stage, code);
      stages := stages[stage := Failed(code)];
      if reason.Some? {
        SkipPendingStages(reason.value);
      }
      MarkFailure(stage, code);
    }

    method Complete(p: Payload, stage: Stage)
      requires stages == Progressed(p, Order(stage)) && Enabled(p, stage)
      modifies this`stages
      ensures stages == Progressed(p, Order(stage) + 1)
    {
      stages := stages[stage := Ready];
    }
  }

  lemma AllStages()
    ensures forall stage: Stage :: stage in [Source, Probe, Package, Downloads, Waveform]
  {
    forall stage: Stage
      ensures stage in [Source, Probe, Package, Downloads, Waveform]
    {
      match stage
      case Source =>
      case Probe =>
      case Package =>
      case Downloads =>
      case Waveform =>
    }
  }

  function ForEnabled(enabled: bool): StageState {
    if enabled then Pending else Skipped("disabled")
  }

  function SkipOne(s: StageState, reason: string): StageState {
    if s == Pending then Skipped(reason) else s
  }

  function WithoutPending(stages: Stages, reason: string): Stages {
    map stage | stage in stages :: SkipOne(stages[stage], reason)
  }

  predicate Enabled(p: Payload, stage: Stage) {
    match stage
    case Source => true
    case Probe => true
    case Package => p.hls
    case Downloads => p.mp3 || p.flac
    case Waveform => p.waveform
  }

  /** The stages run in this order. */
  function Order(stage: Stage): nat {
    match stage
    case Source => 0
    case Probe => 1
    case Waveform => 2
    case Package => 3
    case Downloads => 4
  }

  /** Why later stages are skipped after a failure; the last stage has none after it. */
  function SkipReason(stage: Stage): Option<string> {
    match stage
    case Source => Some("blocked_by_source_failure")
    case Probe => Some("blocked_by_probe_failure")
    case Waveform => Some("not_attempted_after_waveform_failure")
    case Package => Some("not_attempted_after_package_failure")
    case Downloads => None
  }

  /** The state of a stage while the run is about to start the stages from number done on. */
  function StageWhile(p: Payload, done: nat, stage: Stage): StageState {
    if !Enabled(p, stage) then Skipped("disabled") else if Order(stage) < done then Ready else Pending
  }

  function Progressed(p: Payload, done: nat): Stages {
    map[Source := StageWhile(p, done, Source), Probe := StageWhile(p, done, Probe),
        Package := StageWhile(p, done, Package), Downloads := StageWhile(p, done, Downloads),
        Waveform := StageWhile(p, done, Waveform)]
  }

  /** The state of a stage when the run has ended, with or without a failure. */
  function StageAfter(p: Payload, failure: Option<Failure>, stage: Stage): StageState {
    if failure.Some? && failure.value.stage == stage then Failed(failure.value.code)
    else if !Enabled(p, stage) then Skipped("disabled")
    else if failure.Some? && Order(failure.value.stage) < Order(stage) then
      Skipped(SkipReason(failure.value.stage).value)
    else Ready
  }

  function Ended(p: Payload, failure: Option<Failure>): Stages {
    map[Source := StageAfter(p, failure, Source), Probe := StageAfter(p, failure, Probe),
        Package := StageAfter(p, failure, Package), Downloads := StageAfter(p, failure, Downloads),
        Waveform := StageAfter(p, failure, Waveform)]
  }

  lemma StageStates(p: Payload, done: nat, failure: Option<Failure>, stage: Stage)
    ensures stage in Progressed(p, done) && Progressed(p, done)[stage] == StageWhile(p, done, stage)
    ensures stage in Ended(p, failure) && Ended(p, failure)[stage] == StageAfter(p, failure, stage)
  {
  }

  lemma FailureEndsStage(p: Payload, stage: Stage, code: string, other: Stage)
    ensures var state := if other == stage then Failed(code) else StageWhile(p, Order(stage), other);
            (if SkipReason(stage).Some? then SkipOne(state, SkipReason(stage).value) else state) ==
            StageAfter(p, Some(Failure(stage, code)), other)
  {
  }

  lemma FailureEnds(p: Payload, stage: Stage, code: string)
    ensures var failed := Progressed(p, Order(stage))[stage := Failed(code)];
            (forall other :: other in failed) &&
            (match SkipReason(stage)
             case Some(reason) => WithoutPending(failed, reason)
             case None => failed) == Ended(p, Some(Failure(stage, code)))
  {
    hide Progressed, Ended, StageAfter, StageWhile, SkipOne, SkipReason;
    forall other: Stage
      ensures other in Progressed(p, Order(stage)) && other in Ended(p, Some(Failure(stage, code)))
      ensures Progressed(p, Order(stage))[other] == StageWhile(p, Order(stage), other)
      ensures Ended(p, Some(Failure(stage, code)))[other] == StageAfter(p, Some(Failure(stage, code)), other)
      ensures var state := if other == stage then Failed(code) else StageWhile(p, Order(stage), other);
            (if SkipReason(stage).Some? then SkipOne(state, SkipReason(stage).value) else state) ==
            StageAfter(p, Some(Failure(stage, code)), other)
    {
      StageStates(p, Order(stage), Some(Failure(stage, code)), other);
      FailureEndsStage(p, stage, code, other);
    }
  }

  // ---- What a run comes to ----

  function Fails(stage: Stage, code: string): Option<Failure> {
    Some(Failure(stage, code))
  }

  function EncodingFailure(e: Encoding): Option<Failure> {
    if !e.encode then Fails(Downloads, "encode_failed")
    else if !e.upload then Fails(Downloads, "upload_failed")
    else if !e.stat then Fails(Downloads, "finalize_failed")
    else None
  }

  /** How a stage that is reached fails, if it does. The directory for downloads is made even without downloads. */
  function FailureAt(p: Payload, s: Steps, files: seq<string>, stage: Stage): Option<Failure> {
    match stage
    case Source =>
      if !s.download then Fails(Source, "download_failed") else None
    case Probe =>
      if !s.probe then Fails(Probe, "probe_failed")
      else if !s.supported then Fails(Probe, "unsupported_source_format")
      else None
    case Waveform =>
      if !p.waveform then None
      else if !s.generate then Fails(Waveform, "generate_failed")
      else if !s.marshal then Fails(Waveform, "marshal_failed")
      else if !s.waveformUpload then Fails(Waveform, "upload_failed")
      else None
    case Package =>
      if !p.hls then None
      else if p.encrypt && !s.encryption then Fails(Package, "encryption_setup_failed")
      else if !s.scratch || !s.tempDir then Fails(Package, "prepare_failed")
      else if !s.package then Fails(Package, "package_failed")
      else if s.hlsUploads < |files| then Fails(Package, "upload_failed")
      else None
    case Downloads =>
      if !s.downloadDir then Fails(Downloads, "prepare_failed")
      else if p.mp3 && EncodingFailure(s.mp3).Some? then EncodingFailure(s.mp3)
      else if p.flac then EncodingFailure(s.flac)
      else None
  }

  const IN_ORDER := [Source, Probe, Waveform, Package, Downloads]

  /** The failure of the first stage that fails, of those from number done on. */
  function FailureFrom(p: Payload, s: Steps, files: seq<string>, done: nat): Option<Failure>
    requires done <= 5
    decreases 5 - done
  {
    if done == 5 then None
    else
      var failure := FailureAt(p, s, files, IN_ORDER[done]);
      if failure.Some? then failure else FailureFrom(p, s, files, done + 1)
  }

  // ---- What is uploaded ----

  function Key(p: Payload, rest: string): string {
    MediaKey(p.hash, "audio", rest)
  }

  function FileKeys(p: Payload, files: seq<string>): set<string> {
    set i | 0 <= i < |files| :: Key(p, files[i])
  }

  function FilesPut(p: Payload, files: seq<string>): Objects {
    map key | key in FileKeys(p, files) :: Packaged(p.source, p.encrypt, key)
  }

  /** GenerateWaveform's bins and EncodeMP3's bit rate have defaults of their own. */
  function PeaksOf(p: Payload): Content {
    Peaks(p.source, Waveform.BinCount(p.waveformBins))
  }

  function Mp3Of(p: Payload): Content {
    Mp3(p.source, if p.mp3Bitrate == "" then "320k" else p.mp3Bitrate)
  }

  function WaveformPut(p: Payload, s: Steps): Objects {
    if p.waveform && s.generate && s.marshal && s.waveformUpload then map[Key(p, "waveform/waveform.json") := PeaksOf(p)] else map[]
  }

  /** The packaged files whose upload succeeds. */
  function Uploaded(p: Payload, s: Steps, files: seq<string>): seq<string> {
    if p.hls && (p.encrypt ==> s.encryption) && s.scratch && s.tempDir && s.package
    then files[..if s.hlsUploads < |files| then s.hlsUploads else |files|]
    else []
  }

  function PackagePut(p: Payload, s: Steps, files: seq<string>): Objects {
    FilesPut(p, Uploaded(p, s, files))
  }

  function EncodingPut(p: Payload, e: Encoding, rest: string, content: Content): Objects {
    if e.encode && e.upload then map[Key(p, rest) := content] else map[]
  }

  function DownloadsPut(p: Payload, s: Steps): Objects {
    if !s.downloadDir then map[]
    else
      (if p.mp3 then EncodingPut(p, s.mp3, "downloads/audio.mp3", Mp3Of(p)) else map[]) +
      (if p.flac && (p.mp3 ==> EncodingFailure(s.mp3).None?)
       then EncodingPut(p, s.flac, "downloads/audio.flac", Flac(p.source)) else map[])
  }

  /** The objects that a run writes. */
  function Written(p: Payload, s: Steps, files: seq<string>): Objects {
    if FailureAt(p, s, files, Source).Some? || FailureAt(p, s, files, Probe).Some? then map[]
    else
      WaveformPut(p, s) +
      if FailureAt(p, s, files, Waveform).Some? then map[]
      else
        PackagePut(p, s, files) +
        if FailureAt(p, s, files, Package).Some? then map[] else DownloadsPut(p, s)
  }

  /** The downloads that a run that reaches them records. */
  function RecordedDownloads(p: Payload, s: Steps): seq<string> {
    if !s.downloadDir then []
    else
      (if p.mp3 && EncodingFailure(s.mp3).None? then [Key(p, "downloads/audio.mp3")] else []) +
      (if p.flac && (p.mp3 ==> EncodingFailure(s.mp3).None?) && EncodingFailure(s.flac).None?
       then [Key(p, "downloads/audio.flac")] else [])
  }

  // ---- Complete runs ----

  predicate EncodingSucceeds(e: Encoding) {
    e.encode && e.upload && e.stat
  }

  /** Every step that the job takes succeeds. */
  predicate EveryStep(p: Payload, s: Steps, files: seq<string>) {
    && s.download && s.probe && s.supported
    && (p.waveform ==> s.generate && s.marshal && s.waveformUpload)
    && (p.hls ==> (p.encrypt ==> s.encryption) && s.scratch && s.tempDir && s.package && s.hlsUploads >= |files|)
    && s.downloadDir && (p.mp3 ==> EncodingSucceeds(s.mp3)) && (p.flac ==> EncodingSucceeds(s.flac))
  }

  /** What a full success writes. */
  function AllWrites(p: Payload, files: seq<string>): Objects {
    (if p.waveform then map[Key(p, "waveform/waveform.json") := PeaksOf(p)] else map[]) +
    (if p.hls then FilesPut(p, files) else map[]) +
    (if p.mp3 then map[Key(p, "downloads/audio.mp3") := Mp3Of(p)] else map[]) +
    (if p.flac then map[Key(p, "downloads/audio.flac") := Flac(p.source)] else map[])
  }

  /** What a full success records for download. */
  function AllDownloads(p: Payload): seq<string> {
    if p.mp3 && p.flac then [Key(p, "downloads/audio.mp3"), Key(p, "downloads/audio.flac")]
    else if p.mp3 then [Key(p, "downloads/audio.mp3")]
    else if p.flac then [Key(p, "downloads/audio.flac")]
    else []
  }

  predicate EncodingBlamed(asked: bool, e: Encoding, code: string) {
    asked && ((code == "encode_failed" && !e.encode) || (code == "upload_failed" && !e.upload) ||
              (code == "finalize_failed" && !e.stat))
  }

  /** A failure names a step that was taken and did not succeed. */
  predicate Blamed(p: Payload, s: Steps, files: seq<string>, failure: Failure) {
    var code := failure.code;
    match failure.stage
    case Source => code == "download_failed" && !s.download
    case Probe => (code == "probe_failed" && !s.probe) || (code == "unsupported_source_format" && !s.supported)
    case Waveform =>
      p.waveform && ((code == "generate_failed" && !s.generate) || (code == "marshal_failed" && !s.marshal) ||
                     (code == "upload_failed" && !s.waveformUpload))
    case Package =>
      p.hls && ((code == "encryption_setup_failed" && p.encrypt && !s.encryption) ||
                (code == "prepare_failed" && !(s.scratch && s.tempDir)) || (code == "package_failed" && !s.package) ||
                (code == "upload_failed" && s.hlsUploads < |files|))
    case Downloads =>
      (code == "prepare_failed" && !s.downloadDir) || EncodingBlamed(p.mp3, s.mp3, code) || EncodingBlamed(p.flac, s.flac, code)
  }

  /** A run fails exactly when a step that it takes does, and blames such a step. */
  lemma FailsIff(p: Payload, s: Steps, files: seq<string>)
    ensures var failure := FailureFrom(p, s, files, 0);
            (failure.None? <==> EveryStep(p, s, files)) && (failure.Some? ==> Blamed(p, s, files, failure.value))
  {
    hide FailureFrom;
    FirstFailure(p, s, files);
  }

  /** A complete run writes all that was asked for and records every download that was asked for. */
  lemma FullSuccess(p: Payload, s: Steps, files: seq<string>)
    requires EveryStep(p, s, files)
    ensures FailureFrom(p, s, files, 0) == None && Written(p, s, files) == AllWrites(p, files)
    ensures RecordedDownloads(p, s) == AllDownloads(p)
  {
    hide FilesPut, Key, PeaksOf, Mp3Of, Written, FailureFrom;
    FailsIff(p, s, files);
    FirstFailure(p, s, files);
    WrittenParts(p, s, files);
    NoFiles(p);
    assert files[..|files|] == files;
    UnionInOrder(WaveformPut(p, s) + PackagePut(p, s, files),
                 if p.mp3 then map[Key(p, "downloads/audio.mp3") := Mp3Of(p)] else map[],
                 if p.flac then map[Key(p, "downloads/audio.flac") := Flac(p.source)] else map[]);
  }

  lemma DisabledStageIsPassed(p: Payload, stage: Stage)
    requires !Enabled(p, stage)
    ensures Progressed(p, Order(stage)) == Progressed(p, Order(stage) + 1)
  {
  }

  class Worker {
    var objects: Objects

    /** The packaged files in the order in which they are walked, and the playlist among them. */
    const files: seq<string>
    const master: string

    constructor (files: seq<string>, master: string)
      ensures objects == map[] && this.files == files && this.master == master
    {
      objects := map[];
      this.files := files;
      this.master := master;
    }

    method Put(key: string, content: Content, ok: bool)
      modifies this`objects
      ensures objects == if ok then old(objects)[key := content] else old(objects)
    {
      if ok {
        objects := objects[key := content];
      }
    }

    /** uploadAudioHLSDir: stops at the first file that fails. */
    method UploadHLSDir(p: Payload, uploads: nat) returns (ok: bool)
      modifies this`objects
      ensures ok <==> uploads >= |files|
      ensures objects == old(objects) + FilesPut(p, files[..if uploads < |files| then uploads else |files|])
    {
      hide FilesPut, Key;
      NoFiles(p);
      for i := 0 to |files|
        invariant i <= uploads
        invariant objects == old(objects) + FilesPut(p, files[..i])
      {
        FilesStep(p, files, i);
        var key := Key(p, files[i]);
        Put(key, Packaged(p.source, p.encrypt, key), i < uploads);
        if i >= uploads {
          return false;
        }
      }
      return true;
    }

    method WaveformPart(p: Payload, s: Steps, result: ProcessResult) returns (ok: bool)
      requires result.stages == Progressed(p, 2)
      modifies this`objects, result`stages, result`failure, result`waveform
      ensures var failure := FailureAt(p, s, files, Waveform);
              (ok <==> failure.None?) &&
              result.stages == (if ok then Progressed(p, 3) else Ended(p, failure)) &&
              result.failure == (if ok then old(result.failure) else failure) &&
              result.waveform == if ok && p.waveform then Some(Key(p, "waveform/waveform.json")) else old(result.waveform)
      ensures objects == old(objects) + WaveformPut(p, s)
    {
      if p.waveform {
        var reason := Some("not_attempted_after_waveform_failure");
        if !s.generate {
          result.Fail(p, Waveform, "generate_failed", reason);
          return false;
        }
        if !s.marshal {
          result.Fail(p, Waveform, "marshal_failed", reason);
          return false;
        }
        var key := Key(p, "waveform/waveform.json");
        Put(key, PeaksOf(p), s.waveformUpload);
        if !s.waveformUpload {
          result.Fail(p, Waveform, "upload_failed", reason);
          return false;
        }
        result.waveform := Some(key);
        result.Complete(p, Waveform);
      } else {
        DisabledStageIsPassed(p, Waveform);
      }
      return true;
    }

    method PackagePart(p: Payload, s: Steps, result: ProcessResult) returns (ok: bool)
      requires result.stages == Progressed(p, 3)
      modifies this`objects, result`stages, result`failure, result`streaming, result`encryption
      ensures var failure := FailureAt(p, s, files, Package);
              (ok <==> failure.None?) &&
              result.stages == (if ok then Progressed(p, 4) else Ended(p, failure)) &&
              result.failure == (if ok then old(result.failure) else failure) &&
              result.streaming == (if ok && p.hls then Some(Key(p, master)) else old(result.streaming)) &&
              result.encryption == (old(result.encryption) || (ok && p.hls && p.encrypt))
      ensures objects == old(objects) + PackagePut(p, s, files)
    {
      hide FilesPut;
      NoFiles(p);
      if p.hls {
        var reason := Some("not_attempted_after_package_failure");
        if p.encrypt && !s.encryption {
          result.Fail(p, Package, "encryption_setup_failed", reason);
          return false;
        }
        if !s.scratch {
          result.Fail(p, Package, "prepare_failed", reason);
          return false;
        }
        if !s.tempDir {
          result.Fail(p, Package, "prepare_failed", reason);
          return false;
        }
        if !s.package {
          result.Fail(p, Package, "package_failed", reason);
          return false;
        }
        var uploaded := UploadHLSDir(p, s.hlsUploads);
        if !uploaded {
          result.Fail(p, Package, "upload_failed", reason);
          return false;
        }
        result.streaming := Some(Key(p, master));
        if p.encrypt {
          result.encryption := true;
        }
        result.Complete(p, Package);
      } else {
        DisabledStageIsPassed(p, Package);
      }
      return true;
    }

    /** Encoding and uploading one download. */
    method EncodePart(p: Payload, e: Encoding, rest: string, content: Content, result: ProcessResult) returns (ok: bool)
      requires result.stages == Progressed(p, 4)
      modifies this`objects, result`stages, result`failure, result`downloads
      ensures (ok <==> EncodingFailure(e).None?) &&
              result.stages == (if ok then old(result.stages) else Ended(p, EncodingFailure(e))) &&
              result.failure == (if ok then old(result.failure) else EncodingFailure(e)) &&
              result.downloads == if ok then old(result.downloads) + [Key(p, rest)] else old(result.downloads)
      ensures objects == old(objects) + EncodingPut(p, e, rest, content)
    {
      if !e.encode {
        result.Fail(p, Downloads, "encode_failed", None);
        return false;
      }
      var key := Key(p, rest);
      Put(key, content, e.upload);
      if !e.upload {
        result.Fail(p, Downloads, "upload_failed", None);
        return false;
      }
      if !e.stat {
        result.Fail(p, Downloads, "finalize_failed", None);
        return false;
      }
      result.downloads := result.downloads + [key];
      return true;
    }

    method DownloadsPart(p: Payload, s: Steps, result: ProcessResult) returns (ok: bool)
      requires result.stages == Progressed(p, 4) && result.downloads == []
      modifies this`objects, result`stages, result`failure, result`downloads
      ensures var failure := FailureAt(p, s, files, Downloads);
              (ok <==> failure.None?) &&
              result.stages == (if ok then Progressed(p, 5) else Ended(p, failure)) &&
              result.failure == (if ok then old(result.failure) else failure) &&
              result.downloads == RecordedDownloads(p, s)
      ensures objects == old(objects) + DownloadsPut(p, s)
    {
      hide Progressed, Ended, EncodingPut, Key, Mp3Of;
      UnionInOrder(objects, if p.mp3 then EncodingPut(p, s.mp3, "downloads/audio.mp3", Mp3Of(p)) else map[],
                   EncodingPut(p, s.flac, "downloads/audio.flac", Flac(p.source)));
      if !s.downloadDir {
        result.Fail(p, Downloads, "prepare_failed", None);
        return false;
      }
      if p.mp3 {
        ok := EncodePart(p, s.mp3, "downloads/audio.mp3", Mp3Of(p), result);
        if !ok {
          return;
        }
      }
      if p.flac {
        ok := EncodePart(p, s.flac, "downloads/audio.flac", Flac(p.source), result);
        if !ok {
          return;
        }
      }
      if p.mp3 || p.flac {
        result.Complete(p, Downloads);
      } else {
        DisabledStageIsPassed(p, Downloads);
      }
      return true;
    }

    /** HandleAudioTranscode, given how its steps come out. */
    method HandleAudioTranscode(p: Payload, s: Steps) returns (result: ProcessResult)
      modifies this`objects
      ensures fresh(result)
      ensures result.failure == FailureFrom(p, s, files, 0)
      ensures result.stages == Ended(p, result.failure)
      ensures result.waveform == if p.waveform && Reached(result.failure, Package) then Some(Key(p, "waveform/waveform.json")) else None
      ensures result.streaming == if p.hls && Reached(result.failure, Downloads) then Some(Key(p, master)) else None
      ensures result.encryption <==> p.encrypt && result.streaming.Some?
      ensures result.downloads == if Reached(result.failure, Downloads) then RecordedDownloads(p, s) else []
      ensures objects == old(objects) + Written(p, s, files)
      ensures result.failure.None? <==> EveryStep(p, s, files)
      ensures result.failure.Some? ==> Blamed(p, s, files, result.failure.value)
      ensures result.failure.None? ==> result.downloads == AllDownloads(p) && objects == old(objects) + AllWrites(p, files)
    {
      hide EveryStep, Blamed, AllDownloads, AllWrites, FilesPut, WithoutPending, Progressed, Ended, FailureAt, WaveformPut, PackagePut, DownloadsPut, RecordedDownloads,
        Written, PeaksOf, Mp3Of, Key;
      WrittenParts(p, s, files);
      UnionInOrder(objects, WaveformPut(p, s), PackagePut(p, s, files));
      UnionInOrder(objects, WaveformPut(p, s) + PackagePut(p, s, files), DownloadsPut(p, s));
      FirstFailure(p, s, files);
      FailsIff(p, s, files);
      if EveryStep(p, s, files) {
        FullSuccess(p, s, files);
      }
      AllDone(p);
      SourceAndProbe(p, s, files);
      result := new ProcessResult(p);
      if !s.download {
        result.Fail(p, Source, "download_failed", Some("blocked_by_source_failure"));
        return;
      }
      result.Complete(p, Source);
      if !s.probe {
        result.Fail(p, Probe, "probe_failed", Some("blocked_by_probe_failure"));
        return;
      }
      if !s.supported {
        result.Fail(p, Probe, "unsupported_source_format", Some("blocked_by_probe_failure"));
        return;
      }
      result.Complete(p, Probe);
      var ok := WaveformPart(p, s, result);
      if !ok {
        return;
      }
      ok := PackagePart(p, s, result);
      if !ok {
        return;
      }
      ok := DownloadsPart(p, s, result);
    }
  }

  lemma UnionInOrder(w: Objects, a: Objects, b: Objects)
    ensures w + (a + b) == w + a + b && w + map[] == w && a + map[] == a
  {
  }

  /** What is written, by how far the run gets. */
  lemma WrittenParts(p: Payload, s: Steps, files: seq<string>)
    ensures FailureAt(p, s, files, Source).Some? || FailureAt(p, s, files, Probe).Some? ==> Written(p, s, files) == map[]
    ensures FailureAt(p, s, files, Source).None? && FailureAt(p, s, files, Probe).None? ==>
              Written(p, s, files) ==
              if FailureAt(p, s, files, Waveform).Some? then WaveformPut(p, s)
              else if FailureAt(p, s, files, Package).Some? then WaveformPut(p, s) + PackagePut(p, s, files)
              else WaveformPut(p, s) + PackagePut(p, s, files) + DownloadsPut(p, s)
  {
    hide FailureAt, WaveformPut, PackagePut, DownloadsPut;
    UnionInOrder(map[], WaveformPut(p, s), map[]);
    UnionInOrder(map[], PackagePut(p, s, files), map[]);
    UnionInOrder(WaveformPut(p, s), PackagePut(p, s, files), DownloadsPut(p, s));
  }

  lemma NoFiles(p: Payload)
    ensures FilesPut(p, []) == map[]
  {
  }

  lemma FilesStep(p: Payload, files: seq<string>, i: nat)
    requires i < |files|
    ensures var key := Key(p, files[i]);
            FilesPut(p, files[..i + 1]) == FilesPut(p, files[..i])[key := Packaged(p.source, p.encrypt, key)]
  {
    assert files[..i + 1] == files[..i] + [files[i]];
    assert FileKeys(p, files[..i + 1]) == FileKeys(p, files[..i]) + {Key(p, files[i])};
  }

  /** The run got as far as a stage, or beyond it. */
  predicate Reached(failure: Option<Failure>, stage: Stage) {
    failure.None? || Order(failure.value.stage) >= Order(stage)
  }

  lemma AllDone(p: Payload)
    ensures Progressed(p, 5) == Ended(p, None)
  {
  }

  lemma SourceAndProbe(p: Payload, s: Steps, files: seq<string>)
    ensures FailureAt(p, s, files, Source) == if !s.download then Fails(Source, "download_failed") else None
    ensures FailureAt(p, s, files, Probe) ==
            if !s.probe then Fails(Probe, "probe_failed")
            else if !s.supported then Fails(Probe, "unsupported_source_format") else None
  {
  }

  lemma FirstFailure(p: Payload, s: Steps, files: seq<string>)
    ensures FailureFrom(p, s, files, 0) ==
            if FailureAt(p, s, files, Source).Some? then FailureAt(p, s, files, Source)
            else if FailureAt(p, s, files, Probe).Some? then FailureAt(p, s, files, Probe)
            else if FailureAt(p, s, files, Waveform).Some? then FailureAt(p, s, files, Waveform)
            else if FailureAt(p, s, files, Package).Some? then FailureAt(p, s, files, Package)
            else FailureAt(p, s, files, Downloads)
    ensures forall stage | FailureAt(p, s, files, stage).Some? :: FailureAt(p, s, files, stage).value.stage == stage
  {
    hide FailureAt;
    assert FailureFrom(p, s, files, 5) == None;
    assert FailureFrom(p, s, files, 4) == FailureAt(p, s, files, Downloads);
    forall stage | FailureAt(p, s, files, stage).Some?
      ensures FailureAt(p, s, files, stage).value.stage == stage
    {
      FailureNamesItsStage(p, s, files, stage);
    }
  }

  lemma FailureNamesItsStage(p: Payload, s: Steps, files: seq<string>, stage: Stage)
    ensures FailureAt(p, s, files, stage).Some? ==> FailureAt(p, s, files, stage).value.stage == stage
  {
  }

  // ---- Finished runs ----

  /** However its steps come out, a finished run leaves no stage pending; a failed run has exactly one failed stage, the
      one that its summary names; a complete run has none, and exactly its enabled stages are ready. */
  lemma FinishedRun(p: Payload, s: Steps, files: seq<string>)
    ensures var failure := FailureFrom(p, s, files, 0);
            var stages := Ended(p, failure);
            (forall stage | stage in stages :: stages[stage] != Pending) &&
            (forall stage | stage in stages :: stages[stage].Failed? <==> failure.Some? && failure.value.stage == stage) &&
            (failure.Some? ==> stages[failure.value.stage] == Failed(failure.value.code)) &&
            (failure.None? ==> forall stage | stage in stages :: stages[stage] == Ready <==> Enabled(p, stage))
  {
    hide Ended, FailureFrom;
    var failure := FailureFrom(p, s, files, 0);
    forall stage: Stage
      ensures stage in Ended(p, failure) && Ended(p, failure)[stage] == StageAfter(p, failure, stage)
    {
      StageStates(p, 0, failure, stage);
    }
  }

  /** The stages that ran before a failure are ready and those after it are skipped. */
  lemma FailuresCutTheRun(p: Payload, s: Steps, files: seq<string>, stage: Stage)
    requires FailureFrom(p, s, files, 0).Some? && Enabled(p, stage)
    ensures var failure := FailureFrom(p, s, files, 0);
            stage in Ended(p, failure) &&
            (Order(stage) < Order(failure.value.stage) <==> Ended(p, failure)[stage] == Ready) &&
            (Order(stage) > Order(failure.value.stage) <==> Ended(p, failure)[stage].Skipped?)
  {
  }

  /** Why the stages of a finished run are not ready: a stage that was not asked for is disabled, and one that was asked
      for names the stage whose failure kept it from running. */
  lemma SkippedStagesSayWhy(p: Payload, failure: Option<Failure>, stage: Stage)
    requires stage in Ended(p, failure) && Ended(p, failure)[stage].Skipped?
    ensures var reason := Ended(p, failure)[stage].reason;
            if !Enabled(p, stage) then reason == "disabled"
            else
              failure.Some? &&
              match failure.value.stage
              case Source => reason == "blocked_by_source_failure" && stage != Source
              case Probe => reason == "blocked_by_probe_failure" && stage in {Waveform, Package, Downloads}
              case Waveform => reason == "not_attempted_after_waveform_failure" && stage in {Package, Downloads}
              case Package => reason == "not_attempted_after_package_failure" && stage == Downloads
              case Downloads => false
  {
  }

  /** A stage that is not enabled fails in one case only: the directory for downloads cannot be made. */
  lemma DisabledStageFailsIff(p: Payload, s: Steps, files: seq<string>)
    ensures var failure := FailureFrom(p, s, files, 0);
            (failure.Some? && !Enabled(p, failure.value.stage)) <==>
            (failure == Some(Failure(Downloads, "prepare_failed")) && !p.mp3 && !p.flac)
  {
    FirstFailure(p, s, files);
  }

  /** What a result records has been uploaded. */
  lemma RecordsAreUploaded(p: Payload, s: Steps, files: seq<string>)
    ensures var failure := FailureFrom(p, s, files, 0);
            (p.waveform && Reached(failure, Package) ==> Key(p, "waveform/waveform.json") in Written(p, s, files)) &&
            (p.hls && Reached(failure, Downloads) ==> FileKeys(p, files) <= Written(p, s, files).Keys) &&
            (Reached(failure, Downloads) ==> forall key <- RecordedDownloads(p, s) :: key in Written(p, s, files))
  {
    hide FileKeys, FailureFrom;
    FirstFailure(p, s, files);
    assert files[..|files|] == files;
  }

  /** A run writes only under the prefixes that a cleanup of its hash empties. */
  lemma RunsWriteUnderTheirHash(p: Payload, s: Steps, files: seq<string>)
    ensures forall key <- Written(p, s, files) :: UnderPrefixes(p.hash, key)
  {
    hide FailureAt, EncodingFailure, UnderPrefixes, Key, Uploaded, PeaksOf, Mp3Of, Written;
    WrittenParts(p, s, files);
    forall rest: string
      ensures UnderPrefixes(p.hash, Key(p, rest))
    {
      KeyUnderPrefix(p, rest);
    }
    assert forall key <- WaveformPut(p, s) :: UnderPrefixes(p.hash, key);
    assert forall key <- PackagePut(p, s, files) :: UnderPrefixes(p.hash, key);
    assert forall key <- DownloadsPut(p, s) :: UnderPrefixes(p.hash, key);
  }

  lemma KeyUnderPrefix(p: Payload, rest: string)
    ensures UnderPrefixes(p.hash, Key(p, rest))
  {
    MediaKeyUnderOwnPrefix(p.hash, "audio", rest);
  }

  // ---- Running a job again ----

  lemma UploadedAreFiles(p: Payload, s: Steps, files: seq<string>)
    ensures PackagePut(p, s, files).Keys <= if p.hls then FilesPut(p, files).Keys else {}
  {
    var uploaded := Uploaded(p, s, files);
    forall key <- PackagePut(p, s, files)
      ensures p.hls && key in FileKeys(p, files)
    {
      var i :| 0 <= i < |uploaded| && key == Key(p, uploaded[i]);
      assert files[i] == uploaded[i];
    }
  }

  /** A run writes nothing outside what a full success of the same job writes, so running the job again leaves exactly
      the bucket that one full success would have left. */
  lemma RerunRestores(w: Objects, p: Payload, s: Steps, files: seq<string>)
    ensures Written(p, s, files).Keys <= AllWrites(p, files).Keys
    ensures w + Written(p, s, files) + AllWrites(p, files) == w + AllWrites(p, files)
  {
    hide FilesPut, Key, PeaksOf, Mp3Of, Written, FailureAt, EncodingFailure, PackagePut;
    WrittenParts(p, s, files);
    UploadedAreFiles(p, s, files);
  }
}
