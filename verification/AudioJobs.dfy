/** From accepted audio requests to the runs of their jobs. */
module AudioJobs {
  import opened Wrappers
  import opened OptionMaps
  import opened Requests
  import opened AudioFlow
  import Media
  import Retry

  /** The payload that the queued options of an audio request make. */
  function PayloadOf(r: Request, a: AudioOptions): AudioFlow.Payload {
    AudioFlow.Payload(r.hash, r.source, a.hls, a.encrypt, a.mp3, a.flac, a.waveform, a.waveformBins, a.mp3Bitrate)
  }

  /** An audio request that validation accepts, less its callback. */
  predicate ValidAudio(r: Request) {
    r.kind == AUDIO_TRANSCODE && ValidOptions(r.kind, r.options)
  }

  /** The payload of the job that is queued for a request. */
  function Queued(r: Request): AudioFlow.Payload
    requires ValidAudio(r)
  {
    QueuedOptions(r);
    PayloadOf(r, Requests.Payload(Canonicalize(r).value).value.audio)
  }

  /** The queued options are the canonical ones. */
  lemma QueuedOptions(r: Request)
    requires ValidAudio(r)
    ensures Canonicalize(r).Ok? && Parse(r.kind, r.options).Ok? && Parse(r.kind, r.options).value.Audio?
    ensures var a := Parse(r.kind, r.options).value.audio;
            EncryptionAllowed(Normal(a)) &&
            Requests.Payload(Canonicalize(r).value) == Ok(Audio(Normal(a))) &&
            Canonicalize(r).value.options == AudioToMap(Normal(a))
  {
    hide DecodeAudio, AudioToMap, Normal, EncryptionAllowed;
    ParseKind(r.kind, r.options);
    CanonicalParses(r, Canonicalize(r).value);
    CanonicalisersAgreeIff(Parse(r.kind, r.options).value.audio);
    NormalShape(Parse(r.kind, r.options).value.audio);
  }

  /** The names of the objects of a run. */
  const NAMES := ["waveform/waveform.json", "hls/master.m3u8", "downloads/audio.mp3", "downloads/audio.flac"]

  lemma KeysAreApart(p: AudioFlow.Payload, i: nat, j: nat)
    requires i < j < |NAMES|
    ensures Key(p, NAMES[i]) != Key(p, NAMES[j])
  {
    assert NAMES[i] != NAMES[j] by {
      assert |NAMES[0]| == 22 && |NAMES[1]| == 15 && |NAMES[2]| == 19 && |NAMES[3]| == 20;
    }
    if Key(p, NAMES[i]) == Key(p, NAMES[j]) {
      Media.MediaKeyInjective(p.hash, "audio", NAMES[i], NAMES[j]);
    }
  }

  const ALL_GOOD := Steps(true, true, true, true, true, true, true, true, true, true, 1, true,
                         Encoding(true, true, true), Encoding(true, true, true))

  /** What one successful run shows of its payload. */
  lemma RunShows(p: AudioFlow.Payload)
    ensures var w := Written(p, ALL_GOOD, [NAMES[1]]);
            (Key(p, NAMES[0]) in w <==> p.waveform) && (p.waveform ==> w[Key(p, NAMES[0])] == PeaksOf(p)) &&
            (Key(p, NAMES[1]) in w <==> p.hls) && (p.hls ==> w[Key(p, NAMES[1])] == Packaged(p.source, p.encrypt, Key(p, NAMES[1]))) &&
            (Key(p, NAMES[2]) in w <==> p.mp3) && (p.mp3 ==> w[Key(p, NAMES[2])] == Mp3Of(p)) &&
            (Key(p, NAMES[3]) in w <==> p.flac)
  {
    hide Key, PeaksOf, Mp3Of, Written;
    FullSuccess(p, ALL_GOOD, [NAMES[1]]);
    OneFile(p, NAMES[1]);
    KeysAreApart(p, 0, 1);
    KeysAreApart(p, 0, 2);
    KeysAreApart(p, 0, 3);
    KeysAreApart(p, 1, 2);
    KeysAreApart(p, 1, 3);
    KeysAreApart(p, 2, 3);
  }

  lemma OneFile(p: AudioFlow.Payload, name: string)
    ensures FilesPut(p, [name]) == map[Key(p, name) := Packaged(p.source, p.encrypt, Key(p, name))]
  {
    assert FileKeys(p, [name]) == {Key(p, name)} by {
      assert [name][0] == name;
    }
  }

  /** However the steps come out and whatever is packaged, both jobs write the same. */
  ghost predicate SameRuns(p: AudioFlow.Payload, q: AudioFlow.Payload) {
    forall s, files :: Written(p, s, files) == Written(q, s, files)
  }

  /** Canonical options whose runs cannot be told apart are equal. */
  lemma RunsTellOptions(r: Request, q: Request, a: AudioOptions, b: AudioOptions)
    requires r.hash == q.hash && r.source == q.source && SameRuns(PayloadOf(r, Normal(a)), PayloadOf(q, Normal(b)))
    requires EncryptionAllowed(Normal(a)) && EncryptionAllowed(Normal(b))
    ensures Normal(a) == Normal(b)
  {
    hide Written, Normal, Key, SameRuns;
    var n, m := Normal(a), Normal(b);
    NormalShape(a);
    NormalShape(b);
    RunShows(PayloadOf(r, n));
    RunShows(PayloadOf(q, m));
    SameOneRun(PayloadOf(r, n), PayloadOf(q, m));
    SameKeys(PayloadOf(r, n), PayloadOf(q, m));
  }

  lemma SameOneRun(p: AudioFlow.Payload, q: AudioFlow.Payload)
    requires SameRuns(p, q)
    ensures Written(p, ALL_GOOD, [NAMES[1]]) == Written(q, ALL_GOOD, [NAMES[1]])
  {
  }

  lemma SameKeys(p: AudioFlow.Payload, q: AudioFlow.Payload)
    requires p.hash == q.hash
    ensures forall name :: Key(p, name) == Key(q, name)
  {
  }

  /** Two valid audio requests share their fingerprint exactly when they are for one object and their queued jobs write
      the same objects with the same contents in every run. */
  lemma FingerprintMeansRuns(r: Request, q: Request)
    requires ValidAudio(r) && ValidAudio(q)
    ensures Canonicalize(r).Ok? && Canonicalize(q).Ok?
    ensures FingerprintOf(Canonicalize(r).value) == FingerprintOf(Canonicalize(q).value) <==>
            r.hash == q.hash && r.source == q.source && SameRuns(Queued(r), Queued(q))
  {
    hide DecodeAudio, AudioToMap, Normal, EncryptionAllowed, SameRuns;
    QueuedOptions(r);
    QueuedOptions(q);
    var a, b := Parse(r.kind, r.options).value.audio, Parse(q.kind, q.options).value.audio;
    AudioRoundTrip(Normal(a));
    AudioRoundTrip(Normal(b));
    SameRunsAsItself(Queued(r));
    if r.hash == q.hash && r.source == q.source && SameRuns(Queued(r), Queued(q)) {
      RunsTellOptions(r, q, a, b);
    }
  }

  lemma SameRunsAsItself(p: AudioFlow.Payload)
    ensures SameRuns(p, p)
  {
  }

  /** A retry of a failed audio job queues the payload of the failed one, and its success leaves exactly the bucket that
      one success of the failed job would have left. */
  lemma RetryRestores(r: Request, job: Retry.Job, w: AudioFlow.Objects, s: Steps, files: seq<string>)
    requires ValidAudio(r) && Canonicalize(r).Ok? && Retry.StoredFrom(job, Canonicalize(r).value)
    ensures Retry.RetryRequests(job).Ok? && |Retry.RetryRequests(job).value| == 1
    ensures var again := Retry.RetryRequests(job).value[0];
            ValidAudio(again) && Queued(again) == Queued(r) &&
            w + Written(Queued(r), s, files) + AllWrites(Queued(again), files) == w + AllWrites(Queued(r), files)
  {
    hide DecodeAudio, AudioToMap, Normal, EncryptionAllowed, Written, AllWrites;
    QueuedOptions(r);
    var a := Parse(r.kind, r.options).value.audio;
    AudioRoundTrip(Normal(a));
    NormalShape(a);
    var again := Retry.RetryRequests(job).value[0];
    assert Parse(again.kind, again.options) == Ok(Audio(Normal(a)));
    QueuedOptions(again);
    RerunRestores(w, Queued(r), s, files);
  }
}
