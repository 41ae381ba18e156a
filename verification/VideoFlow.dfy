/** The stages of a video:full job and the jobs that are planned to make up for the stages that failed. */
module VideoFlow {
  import opened Wrappers
  import opened OptionMaps
  import opened Requests
  import opened Media
  import Pipelines

  datatype Status = Pending | Ready | Failed | Skipped

  datatype StageState = StageState(status: Status, errorCode: string, reason: string, retryable: bool)

  const PENDING_STAGE := StageState(Pending, "", "", false)
  const READY_STAGE := StageState(Ready, "", "", false)

  function FailedStage(code: string): StageState {
    StageState(Failed, code, "", true)
  }

  function SkippedStage(reason: string): StageState {
    StageState(Skipped, "", reason, false)
  }

  datatype Stages = Stages(source: StageState, cover: StageState, preview: StageState, transcode: StageState)

  /** Object keys of what has been uploaded. */
  datatype Artifacts = Artifacts(cover: Option<string>, preview: Option<string>, transcode: Option<seq<string>>)

  datatype Strategy = NoRetry | RetryJob | RetryTasks

  datatype RetryPlan = RetryPlan(allowed: bool, strategy: Strategy, jobTypes: seq<string>, stages: seq<string>)

  datatype VideoFullResult = VideoFullResult(stages: Stages, artifacts: Artifacts, plan: RetryPlan)

  const NEW_VIDEO_FULL_RESULT := VideoFullResult(
    Stages(PENDING_STAGE, PENDING_STAGE, PENDING_STAGE, PENDING_STAGE), Artifacts(None, None, None),
    RetryPlan(false, NoRetry, [], []))

  // ---- Effective parameters ----

  /** The clip that GeneratePreview makes. */
  function Generated(o: PreviewOptions): PreviewOptions {
    o.(width := if o.width == 0 then 480 else o.width,
       fps := if o.fps == 0 then 10 else o.fps,
       format := if o.format == "" then "webp" else o.format,
       duration := if o.duration == 0.0 then 3.0 else o.duration)
  }

  const DEFAULT_PREVIEW := PreviewOptions(2.0, 3.0, 480, 10, "webp")

  function FullCoverTime(o: FullOptions): real {
    if o.cover.Some? && o.cover.value.timestampSec > 0.0 then o.cover.value.timestampSec else 1.0
  }

  function FullClip(o: FullOptions): PreviewOptions {
    if o.preview.None? then Generated(DEFAULT_PREVIEW)
    else
      var p := o.preview.value;
      Generated(PreviewOptions(
        if p.startSec != 0.0 then p.startSec else 2.0,
        if p.duration != 0.0 then p.duration else 3.0,
        if p.width != 0 then p.width else 480,
        if p.fps != 0 then p.fps else 10,
        if p.format != "" then p.format else "webp"))
  }

  predicate FullEncrypts(o: FullOptions) {
    o.transcode.Some? && o.transcode.value.encrypt
  }

  function JobCoverTime(c: CoverOptions): real {
    if c.timestampSec == 0.0 then 1.0 else c.timestampSec
  }

  /** A cover job extracts the same frame as the full job exactly when the time is not negative. */
  lemma CoverTimesAgreeIff(o: FullOptions)
    ensures JobCoverTime(Pipelines.CoverOf(o)) == FullCoverTime(o) <==> Pipelines.CoverOf(o).timestampSec >= 0.0
  {
  }

  /** A preview job cuts the same clip as the full job exactly when a start other than zero is given. */
  lemma ClipsAgreeIff(o: FullOptions)
    ensures Generated(Pipelines.PreviewOf(o)) == FullClip(o) <==> Pipelines.PreviewOf(o).startSec != 0.0
  {
  }

  // ---- What is written ----

  /** What an object in the media bucket shows. */
  datatype Content = Frame(source: string, time: real) | Clip(source: string, clip: PreviewOptions)
                   | Packaged(source: string, encrypted: bool, key: string) | Foreign(id: int)

  type Objects = map<string, Content>

  function CoverKey(hash: string): string {
    MediaKey(hash, "videos", "cover.jpg")
  }

  function PreviewKey(hash: string, format: string): string {
    MediaKey(hash, "videos", "preview." + format)
  }

  function HlsKeys(hash: string, files: seq<string>): (keys: seq<string>)
    ensures |keys| == |files| && forall i | 0 <= i < |files| :: keys[i] == MediaKey(hash, "videos", files[i])
  {
    seq(|files|, i requires 0 <= i < |files| => MediaKey(hash, "videos", files[i]))
  }

  function CoverWrite(hash: string, source: string, time: real): Objects {
    map[CoverKey(hash) := Frame(source, time)]
  }

  function PreviewWrite(hash: string, source: string, clip: PreviewOptions): Objects {
    map[PreviewKey(hash, clip.format) := Clip(source, clip)]
  }

  function HlsWrites(hash: string, source: string, encrypted: bool, files: seq<string>): Objects {
    map key | key in HlsKeys(hash, files) :: Packaged(source, encrypted, key)
  }

  datatype Payload = Payload(hash: string, source: string, options: FullOptions)

  /** How the fallible steps of a run come out; hlsUploads counts the packaged files that are uploaded before one
      fails. */
  datatype Steps = Steps(download: bool, extract: bool, coverUpload: bool, generate: bool, previewUpload: bool,
                         scratch: bool, tempDir: bool, encryption: bool, transcode: bool, hlsUploads: nat)

  // ---- How a run ends ----

  function Blocked(s: Steps): StageState
    requires !s.download
  {
    SkippedStage("blocked_by_source_failure")
  }

  function CoverStage(s: Steps): StageState {
    if !s.download then Blocked(s)
    else if !s.extract then FailedStage("extract_failed")
    else if !s.coverUpload then FailedStage("upload_failed")
    else READY_STAGE
  }

  function PreviewStage(s: Steps): StageState {
    if !s.download then Blocked(s)
    else if !s.generate then FailedStage("generate_failed")
    else if !s.previewUpload then FailedStage("upload_failed")
    else READY_STAGE
  }

  function TranscodeStage(o: FullOptions, s: Steps, files: seq<string>): StageState {
    if !s.download then Blocked(s)
    else if CoverStage(s) != READY_STAGE || PreviewStage(s) != READY_STAGE then SkippedStage("blocked_by_failed_dependencies")
    else if !s.scratch || !s.tempDir then FailedStage("prepare_failed")
    else if FullEncrypts(o) && !s.encryption then FailedStage("encryption_setup_failed")
    else if !s.transcode then FailedStage("transcode_failed")
    else if s.hlsUploads < |files| then FailedStage("upload_failed")
    else READY_STAGE
  }

  function StagesAfter(o: FullOptions, s: Steps, files: seq<string>): Stages {
    Stages(if s.download then READY_STAGE else FailedStage("download_failed"),
           CoverStage(s), PreviewStage(s), TranscodeStage(o, s, files))
  }

  predicate IsReady(s: StageState) {
    s.status == Ready
  }

  function NotReady(s: StageState, name: string): seq<string> {
    if IsReady(s) then [] else [name]
  }

  /** The plan that fits a state of the stages: what is not ready, or the whole job when its source is missing. */
  function PlanFor(stages: Stages): RetryPlan {
    if !IsReady(stages.source) then RetryPlan(true, RetryJob, [VIDEO_FULL], ["source"])
    else if IsReady(stages.cover) && IsReady(stages.preview) && IsReady(stages.transcode) then RetryPlan(false, NoRetry, [], [])
    else RetryPlan(true, RetryTasks,
                   NotReady(stages.cover, VIDEO_COVER) + NotReady(stages.preview, VIDEO_PREVIEW) +
                   NotReady(stages.transcode, VIDEO_TRANSCODE),
                   NotReady(stages.cover, "cover") + NotReady(stages.preview, "preview") +
                   NotReady(stages.transcode, "transcode"))
  }

  function ArtifactsOf(p: Payload, stages: Stages, files: seq<string>): Artifacts {
    Artifacts(if IsReady(stages.cover) then Some(CoverKey(p.hash)) else None,
              if IsReady(stages.preview) then Some(PreviewKey(p.hash, FullClip(p.options).format)) else None,
              if IsReady(stages.transcode) then Some(HlsKeys(p.hash, files)) else None)
  }

  function ResultOf(p: Payload, s: Steps, files: seq<string>): VideoFullResult {
    var stages := StagesAfter(p.options, s, files);
    VideoFullResult(stages, ArtifactsOf(p, stages, files), PlanFor(stages))
  }

  /** The packaged files whose upload succeeds. */
  function Uploaded(o: FullOptions, s: Steps, files: seq<string>): seq<string> {
    if CoverStage(s) == READY_STAGE && PreviewStage(s) == READY_STAGE && s.scratch && s.tempDir &&
       (FullEncrypts(o) ==> s.encryption) && s.transcode
    then files[..if s.hlsUploads < |files| then s.hlsUploads else |files|]
    else []
  }

  /** The objects that a run writes. */
  function Written(p: Payload, s: Steps, files: seq<string>): Objects {
    CoverPut(p, s) + PreviewPut(p, s) + HlsPut(p, s, files)
  }

  function CoverPut(p: Payload, s: Steps): Objects {
    if IsReady(CoverStage(s)) then CoverWrite(p.hash, p.source, FullCoverTime(p.options)) else map[]
  }

  function PreviewPut(p: Payload, s: Steps): Objects {
    if IsReady(PreviewStage(s)) then PreviewWrite(p.hash, p.source, FullClip(p.options)) else map[]
  }

  function HlsPut(p: Payload, s: Steps, files: seq<string>): Objects {
    HlsWrites(p.hash, p.source, FullEncrypts(p.options), Uploaded(p.options, s, files))
  }

  /** What a full success writes. */
  function AllWrites(p: Payload, files: seq<string>): Objects {
    CoverWrite(p.hash, p.source, FullCoverTime(p.options)) +
    PreviewWrite(p.hash, p.source, FullClip(p.options)) +
    HlsWrites(p.hash, p.source, FullEncrypts(p.options), files)
  }

  /** Every step that a complete run takes has succeeded. */
  predicate EveryStep(o: FullOptions, s: Steps, files: seq<string>) {
    s.download && s.extract && s.coverUpload && s.generate && s.previewUpload && s.scratch && s.tempDir &&
    (o.transcode.Some? && o.transcode.value.encrypt ==> s.encryption) && s.transcode && s.hlsUploads >= |files|
  }

  /** A stage that is not ready says why, and what it names has happened. */
  predicate Explained(o: FullOptions, s: Steps, files: seq<string>, stages: Stages) {
    && (stages.source.status != Ready ==> stages.source == StageState(Failed, "download_failed", "", true) && !s.download)
    && PartExplained(s, stages.cover, "extract_failed", s.extract, s.coverUpload)
    && PartExplained(s, stages.preview, "generate_failed", s.generate, s.previewUpload)
    && match stages.transcode.status
       case Ready => true
       case Pending => false
       case Skipped =>
         || (stages.transcode.reason == "blocked_by_source_failure" && !s.download)
         || (stages.transcode.reason == "blocked_by_failed_dependencies" &&
             (stages.cover.status == Failed || stages.preview.status == Failed))
       case Failed =>
         var code := stages.transcode.errorCode;
         stages.transcode.retryable && stages.cover.status == stages.preview.status == Ready &&
         (|| (code == "prepare_failed" && !(s.scratch && s.tempDir))
          || (code == "encryption_setup_failed" && o.transcode.Some? && o.transcode.value.encrypt && !s.encryption)
          || (code == "transcode_failed" && !s.transcode)
          || (code == "upload_failed" && s.hlsUploads < |files|))
  }

  /** Cover and preview are made and then uploaded. */
  predicate PartExplained(s: Steps, stage: StageState, code: string, made: bool, uploaded: bool) {
    match stage.status
    case Ready => s.download && made && uploaded
    case Pending => false
    case Skipped => stage.reason == "blocked_by_source_failure" && !s.download
    case Failed => stage.retryable && s.download && ((stage.errorCode == code && !made) || (stage.errorCode == "upload_failed" && !uploaded))
  }

  /** A result tells what the run did: a stage is ready exactly when all of its steps succeeded, what is recorded is in the
      bucket with the content that the job asks for, no retry is offered exactly when every step succeeded, and then
      everything has been written. */
  ghost predicate Honest(p: Payload, s: Steps, files: seq<string>, before: Objects, r: VideoFullResult, after: Objects) {
    && (r.stages.source.status == Ready <==> s.download)
    && (r.stages.cover.status == Ready <==> s.download && s.extract && s.coverUpload)
    && (r.stages.preview.status == Ready <==> s.download && s.generate && s.previewUpload)
    && (r.stages.transcode.status == Ready <==> EveryStep(p.options, s, files))
    && Explained(p.options, s, files, r.stages)
    && (r.artifacts.cover.Some? ==> CoverRecorded(p, files, r.artifacts.cover.value, after))
    && (r.artifacts.preview.Some? ==> PreviewRecorded(p, files, r.artifacts.preview.value, after))
    && (r.artifacts.transcode.Some? ==> StreamRecorded(p, files, r.artifacts.transcode.value, after))
    && (!r.plan.allowed <==> EveryStep(p.options, s, files))
    && (!r.plan.allowed ==> after == before + AllWrites(p, files))
  }

  /** The cover is in the bucket, at the time asked for or at one second, unless a packaged file took its name. */
  ghost predicate CoverRecorded(p: Payload, files: seq<string>, key: string, after: Objects) {
    var o := p.options.cover;
    && key == CoverKey(p.hash) && key in after
    && (key !in HlsKeys(p.hash, files) ==>
          after[key] == Frame(p.source, if o.Some? && o.value.timestampSec > 0.0 then o.value.timestampSec else 1.0))
  }

  /** The preview is in the bucket under its format, with the parameters asked for and the defaults for the others. */
  ghost predicate PreviewRecorded(p: Payload, files: seq<string>, key: string, after: Objects) {
    var o := if p.options.preview.Some? then p.options.preview.value else PreviewOptions(0.0, 0.0, 0, 0, "");
    var clip := PreviewOptions(if o.startSec != 0.0 then o.startSec else 2.0, if o.duration != 0.0 then o.duration else 3.0,
                               if o.width != 0 then o.width else 480, if o.fps != 0 then o.fps else 10,
                               if o.format != "" then o.format else "webp");
    && key == PreviewKey(p.hash, clip.format) && key in after
    && (key !in HlsKeys(p.hash, files) ==> after[key] == Clip(p.source, clip))
  }

  /** Every packaged file is in the bucket. */
  ghost predicate StreamRecorded(p: Payload, files: seq<string>, keys: seq<string>, after: Objects) {
    var encrypted := p.options.transcode.Some? && p.options.transcode.value.encrypt;
    && |keys| == |files|
    && forall i | 0 <= i < |keys| ::
         keys[i] == MediaKey(p.hash, "videos", files[i]) && keys[i] in after && after[keys[i]] == Packaged(p.source, encrypted, keys[i])
  }

  // ---- The worker ----

  function Dedupe(items: seq<string>): seq<string> {
    if items == [] then []
    else
      var before, last := Dedupe(items[..|items| - 1]), items[|items| - 1];
      if last == "" || last in before then before else before + [last]
  }

  method DedupeStrings(items: seq<string>) returns (out: seq<string>)
    ensures out == Dedupe(items)
  {
    if |items| == 0 {
      return [];
    }
    var seen: set<string> := {};
    out := [];
    for i := 0 to |items|
      invariant out == Dedupe(items[..i])
      invariant forall item :: item in seen <==> item in out
    {
      assert items[..i + 1][..i] == items[..i];
      var item := items[i];
      if item == "" {
        continue;
      }
      if item in seen {
        continue;
      }
      seen := seen + {item};
      out := out + [item];
    }
    assert items[..|items|] == items;
  }

  /** Deduplication keeps each item that is not empty once and adds nothing. */
  lemma {:induction false} DedupeMeans(items: seq<string>)
    ensures forall item :: item in Dedupe(items) <==> item in items && item != ""
    ensures forall i, j | 0 <= i < j < |Dedupe(items)| :: Dedupe(items)[i] != Dedupe(items)[j]
  {
    if items != [] {
      DedupeMeans(items[..|items| - 1]);
      assert items == items[..|items| - 1] + [items[|items| - 1]];
    }
  }

  /** Lists without repetition and without empty items stay as they are. */
  lemma {:induction false} DedupeKeeps(items: seq<string>)
    requires "" !in items && forall i, j | 0 <= i < j < |items| :: items[i] != items[j]
    ensures Dedupe(items) == items
  {
    if items != [] {
      DedupeKeeps(items[..|items| - 1]);
    }
  }

  method MakeRetryPlan(strategy: Strategy, jobTypes: seq<string>, stages: seq<string>) returns (plan: RetryPlan)
    ensures plan == RetryPlan(|jobTypes| > 0, strategy, Dedupe(jobTypes), Dedupe(stages))
  {
    var types := DedupeStrings(jobTypes);
    var names := DedupeStrings(stages);
    plan := RetryPlan(|jobTypes| > 0, strategy, types, names);
  }

  class Worker {
    var objects: Objects

    /** The packaged files in the order in which they are walked. */
    const files: seq<string>

    constructor (files: seq<string>)
      ensures objects == map[] && this.files == files
    {
      objects := map[];
      this.files := files;
    }

    method Put(key: string, content: Content, ok: bool)
      modifies this
      ensures objects == if ok then old(objects)[key := content] else old(objects)
    {
      if ok {
        objects := objects[key := content];
      }
    }

    /** uploadHLSDir: stops at the first file that fails. */
    method UploadHLSDir(hash: string, source: string, encrypted: bool, uploads: nat) returns (uploaded: Result<seq<string>>)
      modifies this
      ensures uploaded == if uploads < |files| then Err else Ok(HlsKeys(hash, files))
      ensures objects == old(objects) +
                         HlsWrites(hash, source, encrypted, files[..if uploads < |files| then uploads else |files|])
    {
      hide HlsWrites, HlsKeys, MediaKey;
      NothingPackaged(hash, source, encrypted);
      var keys: seq<string> := [];
      for i := 0 to |files|
        invariant i <= uploads && keys == HlsKeys(hash, files[..i])
        invariant objects == old(objects) + HlsWrites(hash, source, encrypted, files[..i])
      {
        HlsStep(hash, source, encrypted, files, i);
        var key := MediaKey(hash, "videos", files[i]);
        Put(key, Packaged(source, encrypted, key), i < uploads);
        if i >= uploads {
          return Err;
        }
        keys := keys + [key];
      }
      assert files[..|files|] == files;
      return Ok(keys);
    }

    /** Uploading the cover if it was extracted. */
    method CoverPart(p: Payload, s: Steps) returns (stage: StageState, artifact: Option<string>)
      requires s.download
      modifies this
      ensures stage == CoverStage(s)
      ensures artifact == if IsReady(stage) then Some(CoverKey(p.hash)) else None
      ensures objects == old(objects) + CoverPut(p, s)
    {
      var time := FullCoverTime(p.options);
      if !s.extract {
        return FailedStage("extract_failed"), None;
      }
      var coverKey := CoverKey(p.hash);
      Put(coverKey, Frame(p.source, time), s.coverUpload);
      if !s.coverUpload {
        return FailedStage("upload_failed"), None;
      }
      return READY_STAGE, Some(coverKey);
    }

    /** Uploading the preview if it was generated. */
    method PreviewPart(p: Payload, s: Steps) returns (stage: StageState, artifact: Option<string>)
      requires s.download
      modifies this
      ensures stage == PreviewStage(s)
      ensures artifact == if IsReady(stage) then Some(PreviewKey(p.hash, FullClip(p.options).format)) else None
      ensures objects == old(objects) + PreviewPut(p, s)
    {
      var clip := FullClip(p.options);
      if !s.generate {
        return FailedStage("generate_failed"), None;
      }
      var ext := clip.format;
      if ext == "" {
        ext := "webp";
      }
      var previewKey := PreviewKey(p.hash, ext);
      Put(previewKey, Clip(p.source, clip), s.previewUpload);
      if !s.previewUpload {
        return FailedStage("upload_failed"), None;
      }
      return READY_STAGE, Some(previewKey);
    }

    /** Encoding, packaging and uploading the stream once cover and preview are ready. */
    method TranscodePart(p: Payload, s: Steps) returns (stage: StageState, artifact: Option<seq<string>>)
      requires CoverStage(s) == PreviewStage(s) == READY_STAGE
      modifies this
      ensures stage == TranscodeStage(p.options, s, files)
      ensures artifact == if IsReady(stage) then Some(HlsKeys(p.hash, files)) else None
      ensures objects == old(objects) + HlsPut(p, s, files)
    {
      hide HlsWrites, HlsKeys;
      NothingPackaged(p.hash, p.source, FullEncrypts(p.options));
      var encrypt := p.options.transcode.Some? && p.options.transcode.value.encrypt;
      if !s.scratch {
        return FailedStage("prepare_failed"), None;
      }
      if !s.tempDir {
        return FailedStage("prepare_failed"), None;
      }
      if encrypt && !s.encryption {
        return FailedStage("encryption_setup_failed"), None;
      }
      if !s.transcode {
        return FailedStage("transcode_failed"), None;
      }
      var uploaded := UploadHLSDir(p.hash, p.source, encrypt, s.hlsUploads);
      if uploaded.Err? {
        return FailedStage("upload_failed"), None;
      }
      return READY_STAGE, Some(uploaded.value);
    }

    /** HandleVideoCover: on success the key of the uploaded cover. */
    method HandleVideoCover(hash: string, source: string, o: CoverOptions, download: bool, extract: bool, upload: bool)
      returns (key: Option<string>)
      modifies this
      ensures key == if download && extract && upload then Some(CoverKey(hash)) else None
      ensures objects == old(objects) + if key.Some? then CoverWrite(hash, source, JobCoverTime(o)) else map[]
    {
      var time := o.timestampSec;
      if time == 0.0 {
        time := 1.0;
      }
      if !download || !extract {
        return None;
      }
      Put(CoverKey(hash), Frame(source, time), upload);
      return if upload then Some(CoverKey(hash)) else None;
    }

    /** HandleVideoPreview: on success the key of the uploaded preview. */
    method HandleVideoPreview(hash: string, source: string, o: PreviewOptions, download: bool, generate: bool, upload: bool)
      returns (key: Option<string>)
      modifies this
      ensures key == if download && generate && upload then Some(PreviewKey(hash, Generated(o).format)) else None
      ensures objects == old(objects) + if key.Some? then PreviewWrite(hash, source, Generated(o)) else map[]
    {
      if !download || !generate {
        return None;
      }
      var clip := Generated(o);
      var ext := clip.format;
      if ext == "" {
        ext := "webp";
      }
      Put(PreviewKey(hash, ext), Clip(source, clip), upload);
      return if upload then Some(PreviewKey(hash, ext)) else None;
    }

    /** HandleVideoTranscode: on success the keys of the uploaded stream; a failed upload leaves what came before it. */
    method HandleVideoTranscode(hash: string, source: string, o: TranscodeOptions, s: Steps) returns (keys: Option<seq<string>>)
      modifies this
      ensures var packaged := s.download && s.scratch && s.tempDir && (o.encrypt ==> s.encryption) && s.transcode;
              keys == (if packaged && s.hlsUploads >= |files| then Some(HlsKeys(hash, files)) else None) &&
              objects == old(objects) + (
                if packaged
                then HlsWrites(hash, source, o.encrypt, files[..if s.hlsUploads < |files| then s.hlsUploads else |files|])
                else map[])
    {
      hide HlsWrites, HlsKeys;
      if !s.download || !s.scratch || !s.tempDir {
        return None;
      }
      if o.encrypt && !s.encryption {
        return None;
      }
      if !s.transcode {
        return None;
      }
      var uploaded := UploadHLSDir(hash, source, o.encrypt, s.hlsUploads);
      return if uploaded.Ok? then Some(uploaded.value) else None;
    }

    /** HandleVideoFull, given how its steps come out. */
    method HandleVideoFull(p: Payload, s: Steps) returns (result: VideoFullResult)
      modifies this
      ensures result == ResultOf(p, s, files)
      ensures objects == old(objects) + Written(p, s, files)
      ensures Honest(p, s, files, old(objects), result, objects)
    {
      ResultsAreHonest(p, s, files, objects);
      hide Honest, HlsWrites, HlsKeys, Dedupe, FullClip, FullCoverTime, CoverKey, PreviewKey, CoverWrite, PreviewWrite, Written,
        RetryTasksForCoverPreview, RetryStagesForCoverPreview, PlanFor, CoverStage, PreviewStage, TranscodeStage, Uploaded, CoverPut, PreviewPut, HlsPut;
      OutcomeOfParts(p, s, files);
      UnionInOrder(objects, CoverPut(p, s), PreviewPut(p, s), HlsPut(p, s, files));
      result := NEW_VIDEO_FULL_RESULT;
      if !s.download {
        result := result.(stages := Stages(FailedStage("download_failed"), SkippedStage("blocked_by_source_failure"),
                                           SkippedStage("blocked_by_source_failure"),
                                           SkippedStage("blocked_by_source_failure")));
        SourcePlan(result.stages);
        var plan := MakeRetryPlan(RetryJob, [VIDEO_FULL], ["source"]);
        return result.(plan := plan);
      }
      result := result.(stages := result.stages.(source := READY_STAGE));

      var cover, coverArtifact := CoverPart(p, s);
      result := result.(artifacts := result.artifacts.(cover := coverArtifact));
      result := result.(stages := result.stages.(cover := cover));

      var preview, previewArtifact := PreviewPart(p, s);
      result := result.(artifacts := result.artifacts.(preview := previewArtifact));
      result := result.(stages := result.stages.(preview := preview));

      if result.stages.cover.status == Failed || result.stages.preview.status == Failed {
        result := result.(stages := result.stages.(transcode := SkippedStage("blocked_by_failed_dependencies")));
        FailedPartsPlan(result.stages);
        var plan := MakeRetryPlan(RetryTasks, RetryTasksForCoverPreview(result.stages), RetryStagesForCoverPreview(result.stages));
        return result.(plan := plan);
      }

      var transcode, transcodeArtifact := TranscodePart(p, s);
      result := result.(artifacts := result.artifacts.(transcode := transcodeArtifact));
      result := result.(stages := result.stages.(transcode := transcode));
      TranscodePlan(result.stages);
      if result.stages.transcode.status == Failed {
        var plan := MakeRetryPlan(RetryTasks, [VIDEO_TRANSCODE], ["transcode"]);
        return result.(plan := plan);
      }
      result := result.(plan := RetryPlan(false, NoRetry, [], []));
    }
  }

  lemma HlsStep(hash: string, source: string, encrypted: bool, files: seq<string>, i: nat)
    requires i < |files|
    ensures HlsKeys(hash, files[..i + 1]) == HlsKeys(hash, files[..i]) + [MediaKey(hash, "videos", files[i])]
    ensures var key := MediaKey(hash, "videos", files[i]);
            HlsWrites(hash, source, encrypted, files[..i + 1]) ==
            HlsWrites(hash, source, encrypted, files[..i])[key := Packaged(source, encrypted, key)]
  {
    assert files[..i + 1] == files[..i] + [files[i]];
    assert HlsKeys(hash, files[..i + 1]) == HlsKeys(hash, files[..i]) + [MediaKey(hash, "videos", files[i])];
  }

  lemma NothingPackaged(hash: string, source: string, encrypted: bool)
    ensures HlsWrites(hash, source, encrypted, []) == map[] && HlsKeys(hash, []) == []
  {
  }

  function RetryTasksForCoverPreview(stages: Stages): seq<string> {
    (if stages.cover.status == Failed then [VIDEO_COVER] else []) +
    (if stages.preview.status == Failed then [VIDEO_PREVIEW] else []) + [VIDEO_TRANSCODE]
  }

  function RetryStagesForCoverPreview(stages: Stages): seq<string> {
    (if stages.cover.status == Failed then ["cover"] else []) +
    (if stages.preview.status == Failed then ["preview"] else []) + ["transcode"]
  }

  lemma SourcePlan(stages: Stages)
    requires !IsReady(stages.source)
    ensures PlanFor(stages) == RetryPlan(true, RetryJob, Dedupe([VIDEO_FULL]), Dedupe(["source"]))
  {
    hide Dedupe;
    DedupeKeeps([VIDEO_FULL]);
    DedupeKeeps(["source"]);
  }

  lemma TranscodePlan(stages: Stages)
    requires IsReady(stages.source) && IsReady(stages.cover) && IsReady(stages.preview)
    ensures PlanFor(stages) ==
            if IsReady(stages.transcode) then RetryPlan(false, NoRetry, [], [])
            else RetryPlan(true, RetryTasks, Dedupe([VIDEO_TRANSCODE]), Dedupe(["transcode"]))
  {
    hide Dedupe;
    DedupeKeeps([VIDEO_TRANSCODE]);
    DedupeKeeps(["transcode"]);
  }

  lemma UnionInOrder(w: Objects, a: Objects, b: Objects, c: Objects)
    ensures w + (a + b + c) == w + a + b + c
  {
  }

  /** How the parts of a run make up its outcome. */
  lemma OutcomeOfParts(p: Payload, s: Steps, files: seq<string>)
    ensures !s.download ==> Written(p, s, files) == map[] && CoverStage(s) == PreviewStage(s) ==
                            TranscodeStage(p.options, s, files) == SkippedStage("blocked_by_source_failure")
    ensures s.download ==>
              (CoverStage(s) == READY_STAGE || CoverStage(s).status == Failed) &&
              (PreviewStage(s) == READY_STAGE || PreviewStage(s).status == Failed) &&
              (TranscodeStage(p.options, s, files).status == Failed || TranscodeStage(p.options, s, files) == READY_STAGE ||
               TranscodeStage(p.options, s, files) == SkippedStage("blocked_by_failed_dependencies")) &&
              (TranscodeStage(p.options, s, files).status == Skipped <==> CoverStage(s).status == Failed || PreviewStage(s).status == Failed)
    ensures Written(p, s, files) == CoverPut(p, s) + PreviewPut(p, s) + HlsPut(p, s, files)
    ensures !(IsReady(CoverStage(s)) && IsReady(PreviewStage(s))) ==> HlsPut(p, s, files) == map[]
  {
    hide HlsWrites, CoverWrite, PreviewWrite;
    NothingPackaged(p.hash, p.source, FullEncrypts(p.options));
  }

  /** The plan for failed covers and previews lists exactly what is not ready. */
  lemma FailedPartsPlan(stages: Stages)
    requires IsReady(stages.source) && stages.transcode.status == Skipped
    requires stages.cover.status in {Ready, Failed} && stages.preview.status in {Ready, Failed}
    requires stages.cover.status == Failed || stages.preview.status == Failed
    ensures var tasks, names := RetryTasksForCoverPreview(stages), RetryStagesForCoverPreview(stages);
            |tasks| > 0 && PlanFor(stages) == RetryPlan(true, RetryTasks, Dedupe(tasks), Dedupe(names))
  {
    hide Dedupe;
    DedupeKeeps(RetryTasksForCoverPreview(stages));
    DedupeKeeps(RetryStagesForCoverPreview(stages));
  }

  // ---- Honest results ----

  lemma KeyNames(hash: string, format: string)
    ensures CoverKey(hash) != PreviewKey(hash, format)
  {
    hide MediaKey;
    forall a: string, b: string | MediaKey(hash, "videos", a) == MediaKey(hash, "videos", b)
      ensures a == b
    {
      MediaKeyInjective(hash, "videos", a, b);
    }
    assert "cover.jpg"[0] != ("preview." + format)[0];
  }

  /** Later writes win. */
  lemma AfterWriting(w: Objects, a: Objects, b: Objects, c: Objects, k: string)
    ensures k in c ==> k in w + (a + b + c) && (w + (a + b + c))[k] == c[k]
    ensures k in b && k !in c ==> k in w + (a + b + c) && (w + (a + b + c))[k] == b[k]
    ensures k in a && k !in b && k !in c ==> k in w + (a + b + c) && (w + (a + b + c))[k] == a[k]
    ensures k in a || k in b ==> k in w + (a + b + c)
  {
  }

  lemma StagesAreHonest(p: Payload, s: Steps, files: seq<string>)
    ensures var stages := StagesAfter(p.options, s, files);
            && (stages.source.status == Ready <==> s.download)
            && (stages.cover.status == Ready <==> s.download && s.extract && s.coverUpload)
            && (stages.preview.status == Ready <==> s.download && s.generate && s.previewUpload)
            && (stages.transcode.status == Ready <==> EveryStep(p.options, s, files))
            && (!PlanFor(stages).allowed <==> EveryStep(p.options, s, files))
  {
  }

  lemma FullClipMeans(o: FullOptions)
    ensures var p := if o.preview.Some? then o.preview.value else PreviewOptions(0.0, 0.0, 0, 0, "");
            FullClip(o) == PreviewOptions(if p.startSec != 0.0 then p.startSec else 2.0, if p.duration != 0.0 then p.duration else 3.0,
                                          if p.width != 0 then p.width else 480, if p.fps != 0 then p.fps else 10,
                                          if p.format != "" then p.format else "webp")
  {
  }

  /** The clip of a preview job keeps every parameter that is given, and takes no default for the start. */
  lemma GeneratedMeans(o: PreviewOptions)
    ensures var clip := Generated(o);
            clip.startSec == o.startSec &&
            (if o.duration != 0.0 then clip.duration == o.duration else clip.duration == 3.0) &&
            (if o.width != 0 then clip.width == o.width else clip.width == 480) &&
            (if o.fps != 0 then clip.fps == o.fps else clip.fps == 10) &&
            (if o.format != "" then clip.format == o.format else clip.format == "webp")
  {
  }

  lemma HlsWritesMeans(hash: string, source: string, encrypted: bool, files: seq<string>)
    ensures forall key :: key in HlsWrites(hash, source, encrypted, files) <==> key in HlsKeys(hash, files)
    ensures forall key <- HlsKeys(hash, files) :: HlsWrites(hash, source, encrypted, files)[key] == Packaged(source, encrypted, key)
  {
  }

  lemma FewerKeys(p: Payload, s: Steps, files: seq<string>, key: string)
    requires key in HlsPut(p, s, files)
    ensures key in HlsKeys(p.hash, files)
  {
    var uploaded := Uploaded(p.options, s, files);
    HlsWritesMeans(p.hash, p.source, FullEncrypts(p.options), uploaded);
    var i :| 0 <= i < |uploaded| && HlsKeys(p.hash, uploaded)[i] == key;
    assert HlsKeys(p.hash, files)[i] == key;
  }

  lemma CoverIsHonest(p: Payload, s: Steps, files: seq<string>, w: Objects)
    requires IsReady(CoverStage(s))
    ensures CoverRecorded(p, files, CoverKey(p.hash), w + Written(p, s, files))
  {
    hide HlsPut, CoverKey, PreviewKey, HlsKeys, FullClip, PreviewStage, CoverStage;
    var key := CoverKey(p.hash);
    KeyNames(p.hash, FullClip(p.options).format);
    AfterWriting(w, CoverPut(p, s), PreviewPut(p, s), HlsPut(p, s, files), key);
    if key in HlsPut(p, s, files) {
      FewerKeys(p, s, files, key);
    }
  }

  lemma PreviewIsHonest(p: Payload, s: Steps, files: seq<string>, w: Objects)
    requires IsReady(PreviewStage(s))
    ensures PreviewRecorded(p, files, PreviewKey(p.hash, FullClip(p.options).format), w + Written(p, s, files))
  {
    hide HlsPut, PreviewKey, HlsKeys, FullClip, CoverStage, PreviewStage, CoverPut;
    var key := PreviewKey(p.hash, FullClip(p.options).format);
    FullClipMeans(p.options);
    AfterWriting(w, CoverPut(p, s), PreviewPut(p, s), HlsPut(p, s, files), key);
    if key in HlsPut(p, s, files) {
      FewerKeys(p, s, files, key);
    }
  }

  lemma StreamIsHonest(p: Payload, s: Steps, files: seq<string>, w: Objects)
    requires EveryStep(p.options, s, files)
    ensures StreamRecorded(p, files, HlsKeys(p.hash, files), w + Written(p, s, files))
    ensures Written(p, s, files) == AllWrites(p, files)
  {
    hide CoverWrite, PreviewWrite, HlsWrites, FullClip, FullCoverTime;
    assert files[..|files|] == files;
    HlsWritesMeans(p.hash, p.source, FullEncrypts(p.options), files);
    var keys := HlsKeys(p.hash, files);
    forall i | 0 <= i < |keys|
      ensures keys[i] in w + Written(p, s, files) &&
              (w + Written(p, s, files))[keys[i]] == Packaged(p.source, FullEncrypts(p.options), keys[i])
    {
      assert keys[i] in keys;
      AfterWriting(w, CoverPut(p, s), PreviewPut(p, s), HlsPut(p, s, files), keys[i]);
    }
  }

  lemma StagesAreExplained(o: FullOptions, s: Steps, files: seq<string>)
    ensures Explained(o, s, files, StagesAfter(o, s, files))
  {
  }

  lemma ResultsAreHonest(p: Payload, s: Steps, files: seq<string>, w: Objects)
    ensures Honest(p, s, files, w, ResultOf(p, s, files), w + Written(p, s, files))
  {
    hide Written, AllWrites, CoverStage, PreviewStage, TranscodeStage, PlanFor, CoverRecorded, PreviewRecorded, StreamRecorded, EveryStep,
      Explained, HlsKeys, PreviewKey, CoverKey, FullClip;
    StagesAreHonest(p, s, files);
    StagesAreExplained(p.options, s, files);
    if IsReady(CoverStage(s)) {
      CoverIsHonest(p, s, files, w);
    }
    if IsReady(PreviewStage(s)) {
      PreviewIsHonest(p, s, files, w);
    }
    if EveryStep(p.options, s, files) {
      StreamIsHonest(p, s, files, w);
    }
  }

  /** A failed upload of the stream fails its stage, records no stream and plans a transcode job. */
  lemma FailedStreamUpload(p: Payload, s: Steps, files: seq<string>)
    requires EveryStep(p.options, s.(hlsUploads := |files|), files) && s.hlsUploads < |files|
    ensures var r := ResultOf(p, s, files);
            r.stages.transcode == StageState(Failed, "upload_failed", "", true) && r.artifacts.transcode == None &&
            r.plan == RetryPlan(true, RetryTasks, ["video:transcode"], ["transcode"])
  {
  }
}
