/** Retrying failed jobs: what a finished run tells, which jobs are rebuilt from it, and what completing them restores. */
module Retry {
  import opened Wrappers
  import opened OptionMaps
  import opened Requests
  import opened VideoFlow
  import Pipelines
  import Media

  // ---- Finished runs ----

  /** However its steps come out, a finished run leaves no stage pending, holds an artifact exactly for each ready
      stage, and is complete exactly when nothing has failed. */
  lemma FinishedRun(p: Payload, s: Steps, files: seq<string>)
    ensures var r := ResultOf(p, s, files);
            r.stages.source.status != Pending && r.stages.cover.status != Pending &&
            r.stages.preview.status != Pending && r.stages.transcode.status != Pending &&
            (r.artifacts.cover.Some? <==> IsReady(r.stages.cover)) &&
            (r.artifacts.preview.Some? <==> IsReady(r.stages.preview)) &&
            (r.artifacts.transcode.Some? <==> IsReady(r.stages.transcode)) &&
            (r.plan.allowed <==> r.stages.source.status == Failed || r.stages.cover.status == Failed ||
                                 r.stages.preview.status == Failed || r.stages.transcode.status == Failed)
  {
  }

  /** Once the source is there, the plan lists a stage exactly when it is not ready, with the job that makes it. */
  lemma PlanListsWhatIsMissing(p: Payload, s: Steps, files: seq<string>)
    requires s.download
    ensures var r := ResultOf(p, s, files);
            ("cover" in r.plan.stages <==> !IsReady(r.stages.cover)) &&
            ("preview" in r.plan.stages <==> !IsReady(r.stages.preview)) &&
            ("transcode" in r.plan.stages <==> !IsReady(r.stages.transcode)) &&
            (VIDEO_COVER in r.plan.jobTypes <==> !IsReady(r.stages.cover)) &&
            (VIDEO_PREVIEW in r.plan.jobTypes <==> !IsReady(r.stages.preview)) &&
            (VIDEO_TRANSCODE in r.plan.jobTypes <==> !IsReady(r.stages.transcode)) &&
            |r.plan.stages| == |r.plan.jobTypes| && "source" !in r.plan.stages && VIDEO_FULL !in r.plan.jobTypes
  {
    var stages := StagesAfter(p.options, s, files);
    var c, v, t := NotReady(stages.cover, VIDEO_COVER), NotReady(stages.preview, VIDEO_PREVIEW), NotReady(stages.transcode, VIDEO_TRANSCODE);
    var c', v', t' := NotReady(stages.cover, "cover"), NotReady(stages.preview, "preview"), NotReady(stages.transcode, "transcode");
    assert forall x :: x in c + v + t <==> x in c || x in v || x in t;
    assert forall x :: x in c' + v' + t' <==> x in c' || x in v' || x in t';
  }

  // ---- Rebuilding requests ----

  /** The stored columns of a job; results are those of a video:full run, if any were stored. */
  datatype Job = Job(kind: string, hash: string, source: string, options: Map, callbackURL: string,
                     results: Option<VideoFullResult>)

  function RequestFromStored(kind: string, job: Job, options: Map): Request {
    Request(kind, job.hash, job.source, options, job.callbackURL)
  }

  /** retryRequestForVideoFull */
  function RetryRequestForVideoFull(kind: string, job: Job, o: FullOptions): (r: Request)
    ensures r.kind == kind && r.hash == job.hash && r.source == job.source && r.callbackURL == job.callbackURL
  {
    var filtered :=
      if kind == VIDEO_COVER then if o.cover.Some? then CoverToMap(o.cover.value) else map[]
      else if kind == VIDEO_PREVIEW then if o.preview.Some? then PreviewToMap(o.preview.value) else map[]
      else if kind == VIDEO_TRANSCODE then if o.transcode.Some? then TranscodeToMap(o.transcode.value) else map[]
      else FullToMap(o);
    RequestFromStored(kind, job, filtered)
  }

  function Rebuilt(kinds: seq<string>, job: Job, o: FullOptions): (r: seq<Request>)
    ensures |r| == |kinds| && forall i | 0 <= i < |r| :: r[i] == RetryRequestForVideoFull(kinds[i], job, o)
  {
    seq(|kinds|, i requires 0 <= i < |kinds| => RetryRequestForVideoFull(kinds[i], job, o))
  }

  /** The requests that a retry of a failed job makes. */
  function RetryRequests(job: Job): Result<seq<Request>> {
    if job.kind != VIDEO_FULL then Ok([RequestFromStored(job.kind, job, job.options)])
    else if DecodeFull(job.options).Err? then Err
    else if job.results.None? then Ok([RequestFromStored(job.kind, job, job.options)])
    else
      var plan := job.results.value.plan;
      if !plan.allowed || plan.jobTypes == [] then Err
      else Ok(Rebuilt(plan.jobTypes, job, NormalFull(DecodeFull(job.options).value)))
  }

  /** A job is made again as it is, unless a video:full run has left a plan: then its planned types are made, each for the
      same source and callback. */
  predicate Answers(job: Job, r: Result<(seq<Request>, Strategy)>) {
    if job.kind == "video:full" && DecodeFull(job.options).Err? then r == Err
    else if job.kind != "video:full" || job.results.None? then
      r == Ok(([Request(job.kind, job.hash, job.source, job.options, job.callbackURL)], RetryJob))
    else
      var plan := job.results.value.plan;
      && (r.Ok? <==> plan.allowed && |plan.jobTypes| > 0)
      && (r.Ok? ==> r.value.1 == plan.strategy && |r.value.0| == |plan.jobTypes| &&
                    forall i | 0 <= i < |plan.jobTypes| ::
                      r.value.0[i] == Request(plan.jobTypes[i], job.hash, job.source, r.value.0[i].options, job.callbackURL))
  }

  /** buildRetryRequests */
  method BuildRetryRequests(job: Job) returns (r: Result<(seq<Request>, Strategy)>)
    ensures r.Ok? <==> RetryRequests(job).Ok?
    ensures r.Ok? ==> r.value.0 == RetryRequests(job).value
    ensures Answers(job, r)
    ensures r.Ok? ==> r.value.1 == if job.kind == VIDEO_FULL && job.results.Some? then job.results.value.plan.strategy else RetryJob
  {
    hide DecodeFull, RetryRequestForVideoFull;
    if job.kind != VIDEO_FULL {
      return Ok(([RequestFromStored(job.kind, job, job.options)], RetryJob));
    }
    var decoded := DecodeFull(job.options);
    if decoded.Err? {
      return Err;
    }
    var full := CanonicalizeVideoFullOptions(decoded.value);
    if job.results.None? {
      return Ok(([RequestFromStored(job.kind, job, job.options)], RetryJob));
    }
    var plan := job.results.value.plan;
    if !plan.allowed || |plan.jobTypes| == 0 {
      return Err;
    }
    var requests: seq<Request> := [];
    for i := 0 to |plan.jobTypes|
      invariant requests == Rebuilt(plan.jobTypes[..i], job, full)
    {
      assert plan.jobTypes[..i + 1][..i] == plan.jobTypes[..i];
      requests := requests + [RetryRequestForVideoFull(plan.jobTypes[i], job, full)];
    }
    assert plan.jobTypes[..|plan.jobTypes|] == plan.jobTypes;
    return Ok((requests, plan.strategy));
  }

  /** The job row that an accepted request is stored as. */
  predicate StoredFrom(job: Job, r: Request) {
    job.kind == r.kind && job.hash == r.hash && job.source == r.source && job.options == r.options &&
    job.callbackURL == r.callbackURL
  }

  lemma RebuiltFullKeepsOptions(job: Job, r: Request, c: Request)
    requires Canonicalize(r) == Ok(c) && StoredFrom(job, c) && job.kind == VIDEO_FULL
    ensures DecodeFull(job.options).Ok?
    ensures RetryRequestForVideoFull(VIDEO_FULL, job, NormalFull(DecodeFull(job.options).value)) == c
  {
    hide DecodeFull, DecodeAudio, DecodeCover, DecodePreview, DecodeTranscode, FullToMap, CoverToMap, PreviewToMap, TranscodeToMap, AudioToMap;
    CanonicalParses(r, c);
  }

  /** A retry that makes a job of the type of the failed one gives it the fingerprint of the failed one. */
  lemma SameTypeRetryKeepsFingerprint(r: Request, c: Request, job: Job, i: nat)
    requires Canonicalize(r) == Ok(c) && StoredFrom(job, c)
    requires RetryRequests(job).Ok? && i < |RetryRequests(job).value| && RetryRequests(job).value[i].kind == job.kind
    ensures var again := Canonicalize(RetryRequests(job).value[i]);
            again.Ok? && FingerprintOf(again.value) == FingerprintOf(c)
  {
    hide DecodeFull, Canonicalize;
    CanonicalizeIdempotent(r);
    if job.kind == VIDEO_FULL {
      RebuiltFullKeepsOptions(job, r, c);
    }
  }

  // ---- Completing a retry ----

  /** What the job of a request writes when all of its steps succeed. */
  function Produces(r: Request, files: seq<string>): Objects {
    var queued := Requests.Payload(r);
    if queued.Err? then map[]
    else
      match queued.value
      case Cover(c) => CoverWrite(r.hash, r.source, JobCoverTime(c))
      case Preview(v) => PreviewWrite(r.hash, r.source, Generated(v))
      case Transcode(t) => HlsWrites(r.hash, r.source, t.encrypt, files)
      case Full(f) => AllWrites(VideoFlow.Payload(r.hash, r.source, f), files)
      case Audio(_) => map[]
  }

  predicate AllSucceed(s: Steps, files: seq<string>) {
    s.download && s.extract && s.coverUpload && s.generate && s.previewUpload && s.scratch && s.tempDir &&
    s.encryption && s.transcode && s.hlsUploads >= |files|
  }

  lemma FullSuccess(p: VideoFlow.Payload, s: Steps, files: seq<string>)
    requires AllSucceed(s, files)
    ensures Written(p, s, files) == AllWrites(p, files) && !ResultOf(p, s, files).plan.allowed
  {
    hide CoverWrite, PreviewWrite, HlsWrites;
    assert files[..|files|] == files;
  }

  /** The bucket after the jobs of some requests have been completed one by one. */
  function Completed(objects: Objects, requests: seq<Request>, files: seq<string>): Objects {
    if requests == [] then objects
    else
      var canonical := Canonicalize(requests[|requests| - 1]);
      Completed(objects, requests[..|requests| - 1], files) +
      if canonical.Ok? then Produces(canonical.value, files) else map[]
  }

  // ---- What the rebuilt jobs write ----

  lemma CoverRetryProduces(job: Job, f: FullOptions, files: seq<string>)
    ensures var c := Canonicalize(RetryRequestForVideoFull(VIDEO_COVER, job, f));
            c.Ok? && Produces(c.value, files) == CoverWrite(job.hash, job.source, JobCoverTime(Pipelines.CoverOf(f)))
  {
    hide DecodeAudio, DecodePreview, DecodeTranscode, DecodeFull;
    CoverRoundTrip(Pipelines.CoverOf(f));
  }

  lemma PreviewRetryProduces(job: Job, f: FullOptions, files: seq<string>)
    ensures var c := Canonicalize(RetryRequestForVideoFull(VIDEO_PREVIEW, job, f));
            c.Ok? && Produces(c.value, files) == PreviewWrite(job.hash, job.source, Generated(Pipelines.PreviewOf(f)))
  {
    hide DecodeAudio, DecodeCover, DecodeTranscode, DecodeFull;
    PreviewRoundTrip(Pipelines.PreviewOf(f));
  }

  lemma TranscodeRetryProduces(job: Job, f: FullOptions, files: seq<string>)
    ensures var c := Canonicalize(RetryRequestForVideoFull(VIDEO_TRANSCODE, job, f));
            c.Ok? && Produces(c.value, files) == HlsWrites(job.hash, job.source, FullEncrypts(f), files)
  {
    hide DecodeAudio, DecodeCover, DecodePreview, DecodeFull;
    TranscodeRoundTrip(Pipelines.TranscodeOf(f));
  }

  lemma FullRetryProduces(job: Job, f: FullOptions, files: seq<string>)
    requires NormalFull(f) == f
    ensures var c := Canonicalize(RetryRequestForVideoFull(VIDEO_FULL, job, f));
            c.Ok? && Produces(c.value, files) == AllWrites(VideoFlow.Payload(job.hash, job.source, f), files)
  {
    hide DecodeAudio, DecodeCover, DecodePreview, DecodeTranscode, DecodeFull, FullToMap, AllWrites;
    FullRoundTrip(f);
  }

  lemma CompletedOne(objects: Objects, a: Request, files: seq<string>)
    requires Canonicalize(a).Ok?
    ensures Completed(objects, [a], files) == objects + Produces(Canonicalize(a).value, files)
  {
  }

  lemma CompletedLast(objects: Objects, before: seq<Request>, last: Request, files: seq<string>)
    requires Canonicalize(last).Ok?
    ensures Completed(objects, before + [last], files) ==
            Completed(objects, before, files) + Produces(Canonicalize(last).value, files)
  {
    assert (before + [last])[..|before|] == before;
  }

  // ---- Merging objects ----

  /** The packaged files do not take the names of covers and previews. */
  predicate OrdinaryNames(files: seq<string>) {
    forall i | 0 <= i < |files| :: files[i] != "cover.jpg" && !("preview." <= files[i])
  }

  lemma KeysAreApart(hash: string, source: string, encrypted: bool, format: string, files: seq<string>)
    requires OrdinaryNames(files)
    ensures CoverKey(hash) != PreviewKey(hash, format)
    ensures CoverKey(hash) !in HlsWrites(hash, source, encrypted, files)
    ensures PreviewKey(hash, format) !in HlsWrites(hash, source, encrypted, files)
  {
    hide Media.MediaKey;
    forall a: string, b: string | Media.MediaKey(hash, "videos", a) == Media.MediaKey(hash, "videos", b)
      ensures a == b
    {
      Media.MediaKeyInjective(hash, "videos", a, b);
    }
    assert "preview." <= "preview." + format;
    assert "cover.jpg"[0] != ("preview." + format)[0];
  }

  lemma HlsAbsorbs(objects: Objects, hash: string, source: string, encrypted: bool, files: seq<string>, n: nat)
    requires n <= |files|
    ensures objects + HlsWrites(hash, source, encrypted, files[..n]) + HlsWrites(hash, source, encrypted, files) ==
            objects + HlsWrites(hash, source, encrypted, files)
  {
    var part, all := HlsKeys(hash, files[..n]), HlsKeys(hash, files);
    forall key | key in part
      ensures key in all
    {
      var i :| 0 <= i < |part| && part[i] == key;
      assert all[i] == key;
    }
  }

  lemma SameMerge(w: Objects, kc: string, c: Content, c': Content, kp: string, v: Content, v': Content, h: Objects)
    requires kc != kp && kc !in h && kp !in h
    ensures w + map[kc := c'] + map[kp := v'] + h == w + (map[kc := c] + map[kp := v] + h) <==> c' == c && v' == v
    ensures w + map[kp := v'] + map[kc := c'] + h == w + map[kc := c'] + map[kp := v'] + h
  {
    var left, right := w + map[kc := c'] + map[kp := v'] + h, w + (map[kc := c] + map[kp := v] + h);
    assert left[kc] == c' && right[kc] == c && left[kp] == v' && right[kp] == v;
    if c' == c && v' == v {
      assert left == right;
    }
    assert w + map[kp := v'] + map[kc := c'] == w + map[kc := c'] + map[kp := v'];
  }

  // ---- The theorem ----

  lemma RebuiltAppend(kinds: seq<string>, kind: string, job: Job, f: FullOptions)
    ensures Rebuilt(kinds + [kind], job, f) == Rebuilt(kinds, job, f) + [RetryRequestForVideoFull(kind, job, f)]
  {
  }

  lemma CompletedStep(w: Objects, kinds: seq<string>, kind: string, job: Job, f: FullOptions, files: seq<string>)
    requires Canonicalize(RetryRequestForVideoFull(kind, job, f)).Ok?
    ensures Completed(w, Rebuilt(kinds + [kind], job, f), files) ==
            Completed(w, Rebuilt(kinds, job, f), files) +
            Produces(Canonicalize(RetryRequestForVideoFull(kind, job, f)).value, files)
  {
    RebuiltAppend(kinds, kind, job, f);
    CompletedLast(w, Rebuilt(kinds, job, f), RetryRequestForVideoFull(kind, job, f), files);
  }

  lemma CompletedNone(w: Objects, job: Job, f: FullOptions, files: seq<string>)
    ensures Completed(w, Rebuilt([], job, f), files) == w
  {
  }

  /** What the retried cover and preview jobs write. */
  function CoverAgain(s: Steps, hash: string, source: string, f: FullOptions): Objects {
    if IsReady(CoverStage(s)) then map[] else CoverWrite(hash, source, JobCoverTime(Pipelines.CoverOf(f)))
  }

  function PreviewAgain(s: Steps, hash: string, source: string, f: FullOptions): Objects {
    if IsReady(PreviewStage(s)) then map[] else PreviewWrite(hash, source, Generated(Pipelines.PreviewOf(f)))
  }

  lemma CompletedPlan(w: Objects, s: Steps, job: Job, f: FullOptions, files: seq<string>)
    ensures var kinds := NotReady(CoverStage(s), VIDEO_COVER) + NotReady(PreviewStage(s), VIDEO_PREVIEW) + [VIDEO_TRANSCODE];
            Completed(w, Rebuilt(kinds, job, f), files) ==
            w + CoverAgain(s, job.hash, job.source, f) + PreviewAgain(s, job.hash, job.source, f) +
            HlsWrites(job.hash, job.source, FullEncrypts(f), files)
  {
    hide CoverStage, PreviewStage, Completed, Produces, Canonicalize, RetryRequestForVideoFull, HlsWrites;
    CompletedNone(w, job, f, files);
    CoverRetryProduces(job, f, files);
    PreviewRetryProduces(job, f, files);
    TranscodeRetryProduces(job, f, files);
    var covers, previews := NotReady(CoverStage(s), VIDEO_COVER), NotReady(PreviewStage(s), VIDEO_PREVIEW);
    if !IsReady(CoverStage(s)) {
      CompletedStep(w, [], VIDEO_COVER, job, f, files);
      assert [] + [VIDEO_COVER] == covers;
    }
    assert Completed(w, Rebuilt(covers, job, f), files) == w + CoverAgain(s, job.hash, job.source, f);
    if !IsReady(PreviewStage(s)) {
      CompletedStep(w, covers, VIDEO_PREVIEW, job, f, files);
    } else {
      assert covers + previews == covers;
    }
    assert Completed(w, Rebuilt(covers + previews, job, f), files) ==
           w + CoverAgain(s, job.hash, job.source, f) + PreviewAgain(s, job.hash, job.source, f);
    CompletedStep(w, covers + previews, VIDEO_TRANSCODE, job, f, files);
  }

  /** The retried parts are made with the parameters of the full job. */
  predicate RetriedAlike(f: FullOptions, s: Steps) {
    s.download ==>
      (IsReady(CoverStage(s)) || Pipelines.CoverOf(f).timestampSec >= 0.0) &&
      (IsReady(PreviewStage(s)) || Pipelines.PreviewOf(f).startSec != 0.0)
  }

  /** What a run and its retried parts leave together, part by part. */
  lemma MergedParts(w: Objects, p: VideoFlow.Payload, s: Steps, files: seq<string>, c: Content, v: Content)
    requires s.download && OrdinaryNames(files)
    requires var f := p.options;
             c == Frame(p.source, if IsReady(CoverStage(s)) then FullCoverTime(f) else JobCoverTime(Pipelines.CoverOf(f))) &&
             v == Clip(p.source, if IsReady(PreviewStage(s)) then FullClip(f) else Generated(Pipelines.PreviewOf(f)))
    ensures var h := HlsWrites(p.hash, p.source, FullEncrypts(p.options), files);
            w + Written(p, s, files) + CoverAgain(s, p.hash, p.source, p.options) +
            PreviewAgain(s, p.hash, p.source, p.options) + h ==
            w + map[CoverKey(p.hash) := c] + map[PreviewKey(p.hash, FullClip(p.options).format) := v] + h
  {
    hide HlsWrites, CoverKey, PreviewKey, FullClip, FullCoverTime, Generated, JobCoverTime, OrdinaryNames, CoverStage,
      PreviewStage, HlsPut;
    var f, h := p.options, HlsWrites(p.hash, p.source, FullEncrypts(p.options), files);
    var kc, kp := CoverKey(p.hash), PreviewKey(p.hash, FullClip(f).format);
    KeysAreApart(p.hash, p.source, FullEncrypts(f), FullClip(f).format, files);
    SameFormat(f);
    OutcomeOfParts(p, s, files);
    UnionInOrder(w, CoverPut(p, s), PreviewPut(p, s), HlsPut(p, s, files));
    if IsReady(CoverStage(s)) && IsReady(PreviewStage(s)) {
      HlsPutAbsorbed(w + CoverPut(p, s) + PreviewPut(p, s), p, s, files);
      NothingMore(w + CoverPut(p, s) + PreviewPut(p, s) + HlsPut(p, s, files));
    } else if IsReady(CoverStage(s)) {
      NothingMore(w + map[kc := c]);
    } else if IsReady(PreviewStage(s)) {
      NothingMore(w);
      NothingMore(w + map[kp := v]);
      NothingMore(w + map[kp := v] + map[kc := c]);
      SameMerge(w, kc, c, c, kp, v, v, h);
    } else {
      NothingMore(w);
    }
  }

  lemma NothingMore(w: Objects)
    ensures w + map[] == w
  {
  }

  lemma HlsPutAbsorbed(w: Objects, p: VideoFlow.Payload, s: Steps, files: seq<string>)
    ensures var h := HlsWrites(p.hash, p.source, FullEncrypts(p.options), files);
            w + HlsPut(p, s, files) + h == w + h
  {
    hide HlsWrites;
    var n := |Uploaded(p.options, s, files)|;
    assert Uploaded(p.options, s, files) == files[..n];
    HlsAbsorbs(w, p.hash, p.source, FullEncrypts(p.options), files, n);
  }

  lemma MergedRun(w: Objects, p: VideoFlow.Payload, s: Steps, files: seq<string>)
    requires s.download && OrdinaryNames(files)
    ensures (w + Written(p, s, files) + CoverAgain(s, p.hash, p.source, p.options) +
             PreviewAgain(s, p.hash, p.source, p.options) + HlsWrites(p.hash, p.source, FullEncrypts(p.options), files) ==
             w + AllWrites(p, files)) <==> RetriedAlike(p.options, s)
  {
    hide HlsWrites, CoverKey, PreviewKey, FullClip, FullCoverTime, Generated, JobCoverTime, OrdinaryNames, Written,
      CoverAgain, PreviewAgain, CoverStage, PreviewStage;
    var f, h := p.options, HlsWrites(p.hash, p.source, FullEncrypts(p.options), files);
    var kc, kp := CoverKey(p.hash), PreviewKey(p.hash, FullClip(f).format);
    KeysAreApart(p.hash, p.source, FullEncrypts(f), FullClip(f).format, files);
    CoverTimesAgreeIff(f);
    ClipsAgreeIff(f);
    var c, v := Frame(p.source, FullCoverTime(f)), Clip(p.source, FullClip(f));
    var c' := Frame(p.source, if IsReady(CoverStage(s)) then FullCoverTime(f) else JobCoverTime(Pipelines.CoverOf(f)));
    var v' := Clip(p.source, if IsReady(PreviewStage(s)) then FullClip(f) else Generated(Pipelines.PreviewOf(f)));
    MergedParts(w, p, s, files, c', v');
    SameMerge(w, kc, c, c', kp, v, v', h);
  }

  lemma SameFormat(f: FullOptions)
    ensures Generated(Pipelines.PreviewOf(f)).format == FullClip(f).format
  {
  }

  lemma FullPayload(r: Request, c: Request)
    requires Canonicalize(r) == Ok(c) && c.kind == VIDEO_FULL
    ensures DecodeFull(c.options).Ok?
    ensures var f := DecodeFull(c.options).value;
            NormalFull(f) == f && c.options == FullToMap(f) && Requests.Payload(c) == Ok(Full(f))
  {
    hide DecodeFull, DecodeAudio, DecodeCover, DecodePreview, DecodeTranscode, FullToMap, CoverToMap, PreviewToMap, TranscodeToMap, AudioToMap;
    CanonicalParses(r, c);
  }

  /** Retrying a failed full job is possible exactly when a stage is not ready, and completing the retried jobs leaves
      the bucket as one full success would have left it exactly when the retried parts were given parameters that the
      single jobs read like the full job does: no negative cover time, and a preview start other than zero. */
  lemma RetryRestoresIff(r: Request, c: Request, job: Job, w: Objects, s: Steps, files: seq<string>)
    requires Canonicalize(r) == Ok(c) && c.kind == VIDEO_FULL && StoredFrom(job, c) && OrdinaryNames(files)
    requires Requests.Payload(c).Ok? && Requests.Payload(c).value.Full?
    requires job.results == Some(ResultOf(VideoFlow.Payload(c.hash, c.source, Requests.Payload(c).value.full), s, files))
    ensures RetryRequests(job).Ok? <==> job.results.value.plan.allowed
    ensures var p := VideoFlow.Payload(c.hash, c.source, Requests.Payload(c).value.full);
            RetryRequests(job).Ok? ==>
              (Completed(w + Written(p, s, files), RetryRequests(job).value, files) == w + AllWrites(p, files) <==>
               RetriedAlike(p.options, s))
  {
    hide DecodeFull, FullToMap, NormalFull, Requests.Payload, Canonicalize, HlsWrites, Produces, AllWrites, CoverAgain,
      PreviewAgain, Completed, RetryRequestForVideoFull, Written, OrdinaryNames, ArtifactsOf;
    FullPayload(r, c);
    var p := VideoFlow.Payload(c.hash, c.source, Requests.Payload(c).value.full);
    if s.download {
      CompletedPlan(w + Written(p, s, files), s, job, p.options, files);
      MergedRun(w, p, s, files);
      PlanOfDownloaded(p, s, files);
    } else {
      OutcomeOfParts(p, s, files);
      NothingMore(w);
      FullRetryProduces(job, p.options, files);
      var again := RetryRequestForVideoFull(VIDEO_FULL, job, p.options);
      assert Rebuilt([VIDEO_FULL], job, p.options) == [again];
      CompletedOne(w, again, files);
    }
  }

  lemma PlanOfDownloaded(p: VideoFlow.Payload, s: Steps, files: seq<string>)
    requires s.download
    ensures var plan := ResultOf(p, s, files).plan;
            plan.jobTypes == if plan.allowed
            then NotReady(CoverStage(s), VIDEO_COVER) + NotReady(PreviewStage(s), VIDEO_PREVIEW) + [VIDEO_TRANSCODE]
            else []
  {
  }

  /** Everything a full run writes lies under the prefixes that a cleanup of its hash empties. */
  lemma RunsWriteUnderTheirHash(p: VideoFlow.Payload, s: Steps, files: seq<string>)
    ensures forall key <- Written(p, s, files) :: Media.UnderPrefixes(p.hash, key)
  {
    hide FullClip, FullCoverTime;
    forall key <- Written(p, s, files)
      ensures Media.UnderPrefixes(p.hash, key)
    {
      var rest := if key == CoverKey(p.hash) then "cover.jpg"
                  else if key == PreviewKey(p.hash, FullClip(p.options).format) then "preview." + FullClip(p.options).format
                  else PackagedName(p, s, files, key);
      Media.MediaKeyUnderOwnPrefix(p.hash, "videos", rest);
    }
  }

  /** The file that a packaged object was made from. */
  ghost function PackagedName(p: VideoFlow.Payload, s: Steps, files: seq<string>, key: string): (file: string)
    requires key in HlsPut(p, s, files)
    ensures key == Media.MediaKey(p.hash, "videos", file)
  {
    var uploaded := Uploaded(p.options, s, files);
    var i :| 0 <= i < |uploaded| && key == HlsKeys(p.hash, uploaded)[i];
    uploaded[i]
  }

  /** The default pipeline with a failed preview is such a case: the retried preview starts at zero instead of at two
      seconds. */
  lemma DefaultPreviewRetryDiffers(hash: string, source: string, w: Objects, files: seq<string>)
    requires OrdinaryNames(files)
    ensures var s := Steps(true, true, true, false, true, true, true, true, true, |files|);
            var p := VideoFlow.Payload(hash, source, FullOptions(None, None, None));
            var job := Job(VIDEO_FULL, hash, source, map[], "", Some(ResultOf(p, s, files)));
            RetryRequests(job).Ok? &&
            Completed(w + Written(p, s, files), RetryRequests(job).value, files) != w + AllWrites(p, files)
  {
    hide Completed, AllWrites, Written, RetryRequests, ResultOf, Canonicalize, Requests.Payload, OrdinaryNames;
    var s := Steps(true, true, true, false, true, true, true, true, true, |files|);
    var p := VideoFlow.Payload(hash, source, FullOptions(None, None, None));
    var r := Request(VIDEO_FULL, hash, source, map[], "");
    DefaultRequest(hash, source);
    NoPlanWithoutFailure(p, s, files);
    RetryRestoresIff(r, r, Job(VIDEO_FULL, hash, source, map[], "", Some(ResultOf(p, s, files))), w, s, files);
  }

  lemma DefaultRequest(hash: string, source: string)
    ensures var r := Request(VIDEO_FULL, hash, source, map[], "");
            Canonicalize(r) == Ok(r) && Requests.Payload(r) == Ok(Full(FullOptions(None, None, None)))
  {
    hide DecodeFull, FullToMap, DecodeAudio, DecodeCover, DecodePreview, DecodeTranscode;
    Pipelines.EmptyFull();
    EmptyFullMap();
  }

  lemma EmptyFullMap()
    ensures FullToMap(FullOptions(None, None, None)) == map[]
  {
  }

  lemma NoPlanWithoutFailure(p: VideoFlow.Payload, s: Steps, files: seq<string>)
    requires s.download && !s.generate
    ensures ResultOf(p, s, files).plan.allowed
  {
  }
}
