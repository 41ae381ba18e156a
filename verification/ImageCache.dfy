/** Image requests over the memory cache, the media bucket and the cache index: every body served is the direct
    rendering, and the index covers what is cached. */
module ImageCache {
  import opened Wrappers
  import opened Text
  import opened ImageOptions
  import opened Media
  import opened Cleanup
  import LruSpec

  // ---- Keys ----

  /** What does not change while the server runs: the source bucket, rendering, hashing and the memory limit. */
  datatype Env = Env(
    source: map<string, Bytes>,
    render: (Bytes, nat, nat, nat, Format) -> Option<Bytes>,
    sha: string -> string,
    maxBytes: int)

  /** A request whose signature was accepted. */
  datatype Request = Request(key: string, options: Options)

  ghost predicate Injective(sha: string -> string) {
    forall a, b :: sha(a) == sha(b) ==> a == b
  }

  /** processingHash */
  function CacheKey(env: Env, r: Request): string {
    env.sha(Preimage(r.key, r.options))
  }

  /** s3CacheKey of the request's format and cache key. */
  function StorageKey(env: Env, r: Request): string {
    "cache/" + CacheKey(env, r) + "." + Ext(r.options.format)
  }

  /** What fetching the source and rendering it gives. */
  function Direct(env: Env, r: Request): Option<Bytes> {
    if r.key in env.source
    then env.render(env.source[r.key], r.options.width, r.options.height, EffectiveQuality(r.options), r.options.format)
    else None
  }

  predicate IsHexDigit(c: char) {
    '0' <= c <= '9' || 'a' <= c <= 'f' || 'A' <= c <= 'F'
  }

  /** The length of a leading "sha256:", where case folding also admits the long s, U+017F. */
  function SchemeLength(segment: string): (n: nat)
    ensures n <= |segment|
  {
    if |segment| >= 7 && Lower(segment[..7]) == "sha256:" then 7
    else if |segment| >= 8 && segment[0] as int == 0xC5 && segment[1] as int == 0xBF && Lower(segment[2..8]) == "ha256:" then 8
    else 0
  }

  function HashOfSegment(segment: string): Option<string> {
    var digits := segment[SchemeLength(segment)..];
    if |digits| == 64 && forall c <- digits :: IsHexDigit(c) then Some(Lower(digits)) else None
  }

  function FirstHash(segments: seq<string>): string {
    if segments == [] then ""
    else
      match HashOfSegment(segments[0])
      case Some(hash) => hash
      case None => FirstHash(segments[1..])
  }

  /** The content hash in a source path, lower case, or nothing. */
  function ExtractContentHash(source: string): string {
    FirstHash(Split(source, '/'))
  }

  /** Hexadecimal digits in either case. */
  predicate IsHash(digits: string) {
    |digits| == 64 && forall i | 0 <= i < 64 :: '0' <= digits[i] <= '9' || 'a' <= digits[i] <= 'f' || 'A' <= digits[i] <= 'F'
  }

  /** The first segment of a path that is 64 hexadecimal digits, marked as a SHA-256 or not, is its hash, in lower case. */
  lemma MarkedSegmentIsFound(before: seq<string>, mark: string, digits: string, after: seq<string>)
    requires mark in {"", "sha256:", "SHA256:"} && IsHash(digits)
    requires forall i | 0 <= i < |before| :: |before[i]| < 64 && '/' !in before[i]
    requires forall i | 0 <= i < |after| :: '/' !in after[i]
    ensures var hash := ExtractContentHash(Join(before + [mark + digits] + after, '/'));
            |hash| == 64 && forall i | 0 <= i < 64 ::
              hash[i] == if 'A' <= digits[i] <= 'F' then (digits[i] as int + 32) as char else digits[i]
  {
    hide Split, Join, HashOfSegment, FirstHash;
    var segments := before + [mark + digits] + after;
    HashHasNoSlash(digits);
    forall i | 0 <= i < |segments|
      ensures '/' !in segments[i]
    {
    }
    SplitOfJoin(segments, '/');
    HashOfMarked(mark, digits);
    FirstHashAt(before, mark + digits, after);
  }

  lemma HashHasNoSlash(digits: string)
    requires IsHash(digits)
    ensures '/' !in digits
  {
  }

  lemma HashOfMarked(mark: string, digits: string)
    requires mark in {"", "sha256:", "SHA256:"} && IsHash(digits)
    ensures HashOfSegment(mark + digits).Some?
    ensures var hash := HashOfSegment(mark + digits).value;
            |hash| == 64 && forall i | 0 <= i < 64 ::
              hash[i] == if 'A' <= digits[i] <= 'F' then (digits[i] as int + 32) as char else digits[i]
  {
    var segment := mark + digits;
    if mark == "" {
      assert Lower(segment[..7])[0] == LowerChar(digits[0]) != 's';
    } else {
      assert segment[..7] == mark;
      assert Lower(mark) == "sha256:";
    }
    assert segment[SchemeLength(segment)..] == digits;
  }

  lemma {:induction false} FirstHashAt(before: seq<string>, segment: string, after: seq<string>)
    requires forall i | 0 <= i < |before| :: |before[i]| < 64
    requires HashOfSegment(segment).Some?
    ensures FirstHash(before + [segment] + after) == HashOfSegment(segment).value
  {
    var all := before + [segment] + after;
    if before != [] {
      FirstHashAt(before[1..], segment, after);
      assert all[0] == before[0] && all[1..] == before[1..] + [segment] + after;
    }
  }

  /** Requests that share a cache key render alike. */
  lemma SameKeySameRendering(env: Env, r: Request, r': Request)
    requires Injective(env.sha) && CacheKey(env, r) == CacheKey(env, r')
    ensures r.key == r'.key && r.options.format == r'.options.format && Direct(env, r) == Direct(env, r')
    ensures StorageKey(env, r) == StorageKey(env, r')
  {
    PreimageInjective(r.key, r.options, r'.key, r'.options);
  }

  lemma SameStorageSameKey(env: Env, r: Request, r': Request)
    requires StorageKey(env, r) == StorageKey(env, r')
    ensures CacheKey(env, r) == CacheKey(env, r')
  {
    var a, b := "cache/" + CacheKey(env, r), "cache/" + CacheKey(env, r');
    CutLast(a, Ext(r.options.format), b, Ext(r'.options.format), '.');
    assert CacheKey(env, r) == a[6..] && CacheKey(env, r') == b[6..];
  }

  // ---- One request ----

  /** What goes wrong while one request is served. */
  datatype Trouble = Trouble(storageDown: bool, sourceDown: bool, upsertFails: bool)

  datatype Response = Body(data: Bytes) | NotFound | BadGateway | ProcessingFailed

  /** A storage write-back that has been started and has not ended. */
  datatype Write = Write(request: Request, data: Bytes)

  /** The shared state, the write-backs in flight, and the storage keys whose write-back was in flight when a cleanup of
      their hash ran (these may end up outside the index). */
  datatype State = State(world: World, pending: seq<Write>, escaped: set<string>)

  function Upsert(index: seq<IndexRow>, row: IndexRow): (r: seq<IndexRow>)
    ensures forall row' :: row' in r <==> row' == row || (row' in index && (row'.hash != row.hash || row'.storageKey != row.storageKey))
  {
    if index == [] then [row]
    else (if index[0].hash == row.hash && index[0].storageKey == row.storageKey then [] else [index[0]]) + Upsert(index[1..], row)
  }

  function RowFor(env: Env, r: Request): IndexRow {
    IndexRow(ExtractContentHash(r.key), CacheKey(env, r), StorageKey(env, r))
  }

  /** trackCacheEntry */
  function Tracked(env: Env, s: State, r: Request, upsertFails: bool): State {
    if ExtractContentHash(r.key) == "" || upsertFails then s
    else s.(world := s.world.(index := Upsert(s.world.index, RowFor(env, r))), escaped := s.escaped - {StorageKey(env, r)})
  }

  function Remembered(env: Env, s: State, r: Request, data: Bytes): State {
    s.(world := s.world.(memory := LruSpec.Set(s.world.memory, env.maxBytes, CacheKey(env, r), data)))
  }

  /** Handle, from the cache lookup on. */
  function Served(env: Env, s: State, r: Request, t: Trouble): (State, Response) {
    var cacheKey, storageKey := CacheKey(env, r), StorageKey(env, r);
    match LruSpec.Find(s.world.memory, cacheKey)
    case Some(data) =>
      var touched := s.(world := s.world.(memory := LruSpec.Get(s.world.memory, cacheKey)));
      (Tracked(env, touched, r, t.upsertFails), Body(data))
    case None =>
      if !t.storageDown && storageKey in s.world.objects then
        var data := s.world.objects[storageKey];
        (Remembered(env, Tracked(env, s, r, t.upsertFails), r, data), Body(data))
      else if t.sourceDown then (s, BadGateway)
      else if r.key !in env.source then (s, NotFound)
      else
        match Direct(env, r)
        case None => (s, ProcessingFailed)
        case Some(data) =>
          var done := Tracked(env, Remembered(env, s, r, data), r, t.upsertFails);
          (done.(pending := done.pending + [Write(r, data)]), Body(data))
  }

  /** The quality that a request is rendered at: the one asked for, or the default of its format. */
  function QualityAsked(o: Options): nat {
    if o.quality > 0 then o.quality
    else
      match o.format
      case WebP => 80
      case AVIF => 50
      case JPEG => 80
      case PNG => 0
      case GIF => 0
      case Original => 80
  }

  /** What serving a request does, by where its rendering is found. */
  ghost predicate Answers(env: Env, s: State, r: Request, t: Trouble, s': State, response: Response) {
    var inMemory := LruSpec.Find(s.world.memory, CacheKey(env, r));
    if inMemory.Some? then response == Body(inMemory.value) && s'.pending == s.pending && Kept(env, r, t, s', inMemory.value)
    else if !t.storageDown && StorageKey(env, r) in s.world.objects then
      var data := s.world.objects[StorageKey(env, r)];
      response == Body(data) && s'.pending == s.pending && (Fits(env, data) ==> Kept(env, r, t, s', data))
    else if t.sourceDown then response == BadGateway && s' == s
    else if r.key !in env.source then response == NotFound && s' == s
    else
      match env.render(env.source[r.key], r.options.width, r.options.height, QualityAsked(r.options), r.options.format)
      case None => response == ProcessingFailed && s' == s
      case Some(data) =>
        response == Body(data) && s'.pending == s.pending + [Write(r, data)] && (Fits(env, data) ==> Kept(env, r, t, s', data))
  }

  predicate Fits(env: Env, data: Bytes) {
    0 < env.maxBytes && |data| <= env.maxBytes
  }

  /** The rendering is the most recent one in memory, and in the index if its path carries a hash. */
  predicate Kept(env: Env, r: Request, t: Trouble, s: State, data: Bytes) {
    && LruSpec.Find(s.world.memory, CacheKey(env, r)) == Some(data)
    && LruSpec.MostRecent(s.world.memory, CacheKey(env, r), data)
    && (ExtractContentHash(r.key) != "" && !t.upsertFails ==>
          IndexRow(ExtractContentHash(r.key), CacheKey(env, r), StorageKey(env, r)) in s.world.index)
  }

  lemma QualityIsAsked(o: Options)
    ensures EffectiveQuality(o) == QualityAsked(o)
  {
  }

  /** Qualities that are asked for keep renderings apart. */
  lemma QualitiesAreApart(source: string, o: Options, quality: nat)
    requires o.quality > 0 && quality > 0 && o.quality != quality
    ensures Preimage(source, o) != Preimage(source, o.(quality := quality))
  {
    PreimageInjective(source, o, source, o.(quality := quality));
  }

  /** The direct rendering has the size, the quality and the format asked for. */
  lemma DirectIsAsked(env: Env, r: Request)
    ensures Direct(env, r) ==
            if r.key in env.source
            then env.render(env.source[r.key], r.options.width, r.options.height, QualityAsked(r.options), r.options.format)
            else None
  {
    QualityIsAsked(r.options);
  }

  lemma ServedAnswers(env: Env, s: State, r: Request, t: Trouble)
    ensures var (s', response) := Served(env, s, r, t); Answers(env, s, r, t, s', response)
  {
    hide CacheKey, StorageKey, ExtractContentHash, LruSpec.Set, LruSpec.Get, LruSpec.Find, LruSpec.MostRecent, Direct,
      QualityAsked;
    DirectIsAsked(env, r);
    var (s', response) := Served(env, s, r, t);
    LruSpec.FoundAgain(s.world.memory, env.maxBytes, CacheKey(env, r), if response.Body? then response.data else []);
  }

  class ImageHandler {
    const env: Env
    var world: World
    var pending: seq<Write>
    ghost var escaped: set<string>

    constructor (env: Env, world: World)
      ensures this.env == env && Current() == State(world, [], {})
    {
      this.env, this.world, pending, escaped := env, world, [], {};
    }

    ghost function Current(): State
      reads this
    {
      State(world, pending, escaped)
    }

    method TrackCacheEntry(r: Request, upsertFails: bool)
      modifies this
      ensures Current() == Tracked(env, old(Current()), r, upsertFails)
    {
      hide ExtractContentHash, Upsert, CacheKey, StorageKey;
      var hash := ExtractContentHash(r.key);
      if hash == "" {
        return;
      }
      if !upsertFails {
        world := world.(index := Upsert(world.index, IndexRow(hash, CacheKey(env, r), StorageKey(env, r))));
        escaped := escaped - {StorageKey(env, r)};
      }
    }

    method Handle(r: Request, t: Trouble) returns (response: Response)
      modifies this
      ensures (Current(), response) == Served(env, old(Current()), r, t)
      ensures Answers(env, old(Current()), r, t, Current(), response)
    {
      ServedAnswers(env, Current(), r, t);
      hide Answers, Tracked, CacheKey, StorageKey, LruSpec.Find, LruSpec.Get, LruSpec.Set, EffectiveQuality;
      var cacheKey := CacheKey(env, r);
      var hit := LruSpec.Find(world.memory, cacheKey);
      if hit.Some? {
        world := world.(memory := LruSpec.Get(world.memory, cacheKey));
        TrackCacheEntry(r, t.upsertFails);
        return Body(hit.value);
      }
      var storageCacheKey := StorageKey(env, r);
      if !t.storageDown && storageCacheKey in world.objects {
        var data := world.objects[storageCacheKey];
        TrackCacheEntry(r, t.upsertFails);
        world := world.(memory := LruSpec.Set(world.memory, env.maxBytes, cacheKey, data));
        return Body(data);
      }
      if t.sourceDown {
        return BadGateway;
      }
      if r.key !in env.source {
        return NotFound;
      }
      var result := env.render(env.source[r.key], r.options.width, r.options.height, EffectiveQuality(r.options), r.options.format);
      if result.None? {
        return ProcessingFailed;
      }
      world := world.(memory := LruSpec.Set(world.memory, env.maxBytes, cacheKey, result.value));
      TrackCacheEntry(r, t.upsertFails);
      pending := pending + [Write(r, result.value)];
      return Body(result.value);
    }
  }

  // ---- Runs ----

  /** A request, a write-back that lands or is lost, or a cleanup that stops in a safe state. */
  datatype Event =
    | Serve(request: Request, trouble: Trouble, response: Response)
    | Land(n: nat)
    | Lose(n: nat)
    | Clean(hash: string, outcome: World)

  function WithoutWrite(pending: seq<Write>, n: nat): seq<Write>
    requires n < |pending|
  {
    pending[..n] + pending[n + 1..]
  }

  function InFlight(env: Env, pending: seq<Write>, hash: string): set<string> {
    set w | w in pending && ExtractContentHash(w.request.key) == hash :: StorageKey(env, w.request)
  }

  /** The state after a cleanup that stopped in outcome. */
  function Cleaned(env: Env, s: State, hash: string, outcome: World): State {
    State(outcome, s.pending, s.escaped + InFlight(env, s.pending, hash))
  }

  function Landed(env: Env, s: State, n: nat): State
    requires n < |s.pending|
  {
    var w := s.pending[n];
    s.(world := s.world.(objects := s.world.objects[StorageKey(env, w.request) := w.data]), pending := WithoutWrite(s.pending, n))
  }

  ghost predicate Next(env: Env, s: State, e: Event, s': State) {
    match e
    case Serve(r, t, response) => (s', response) == Served(env, s, r, t)
    case Land(n) => n < |s.pending| && s' == Landed(env, s, n)
    case Lose(n) => n < |s.pending| && s' == s.(pending := WithoutWrite(s.pending, n))
    case Clean(hash, outcome) => Safe(hash, s.world, outcome) && s' == Cleaned(env, s, hash, outcome)
  }

  ghost predicate Run(env: Env, states: seq<State>, events: seq<Event>) {
    |states| == |events| + 1 && forall i | 0 <= i < |events| :: Next(env, states[i], events[i], states[i + 1])
  }

  // ---- Every body is the direct rendering ----

  /** Some request with this cache key renders to these bytes. */
  ghost predicate Renders(env: Env, cacheKey: string, data: Bytes) {
    exists r :: CacheKey(env, r) == cacheKey && Direct(env, r) == Some(data)
  }

  ghost predicate RendersStored(env: Env, storageKey: string, data: Bytes) {
    exists r :: StorageKey(env, r) == storageKey && Direct(env, r) == Some(data)
  }

  /** Everything cached, or on its way to storage, is a direct rendering. */
  ghost predicate Coherent(env: Env, s: State) {
    && (forall k :: LruSpec.Find(s.world.memory, k).Some? ==> Renders(env, k, LruSpec.Find(s.world.memory, k).value))
    && (forall k | k in s.world.objects && "cache/" <= k :: RendersStored(env, k, s.world.objects[k]))
    && (forall w <- s.pending :: Direct(env, w.request) == Some(w.data))
  }

  lemma RendersIsDirect(env: Env, r: Request, data: Bytes)
    requires Injective(env.sha)
    ensures Renders(env, CacheKey(env, r), data) ==> Direct(env, r) == Some(data)
    ensures RendersStored(env, StorageKey(env, r), data) ==> Direct(env, r) == Some(data)
  {
    if Renders(env, CacheKey(env, r), data) {
      var r' :| CacheKey(env, r') == CacheKey(env, r) && Direct(env, r') == Some(data);
      SameKeySameRendering(env, r, r');
    }
    if RendersStored(env, StorageKey(env, r), data) {
      var r' :| StorageKey(env, r') == StorageKey(env, r) && Direct(env, r') == Some(data);
      SameStorageSameKey(env, r, r');
      SameKeySameRendering(env, r, r');
    }
  }

  /** What the memory cache may answer after an operation. */
  lemma MemoryAfter(env: Env, memory: LruSpec.Entries, key: string, data: Bytes, k: string)
    ensures LruSpec.Find(LruSpec.Get(memory, key), k) == LruSpec.Find(memory, k)
    ensures var r := LruSpec.Find(LruSpec.Set(memory, env.maxBytes, key, data), k);
            r == None || r == LruSpec.Find(memory, k) || (k == key && r == Some(data))
  {
    LruSpec.FindWithout(memory, key, k);
    var all := [LruSpec.Entry(key, data)] + LruSpec.Without(memory, key);
    TrimFinds(all, env.maxBytes, k);
    assert all[1..] == LruSpec.Without(memory, key);
    if LruSpec.Find(memory, key).Some? {
      var front := [LruSpec.Entry(key, LruSpec.Find(memory, key).value)] + LruSpec.Without(memory, key);
      assert front[1..] == LruSpec.Without(memory, key);
    }
  }

  lemma {:induction false} TrimFinds(s: LruSpec.Entries, maxBytes: int, k: string)
    ensures var r := LruSpec.Find(LruSpec.Trim(s, maxBytes), k);
            r == None || r == LruSpec.Find(s, k)
  {
    if s != [] && LruSpec.Total(s) > maxBytes {
      TrimFinds(s[..|s| - 1], maxBytes, k);
      FindInPrefix(s, |s| - 1, k);
    }
  }

  lemma {:induction false} FindInPrefix(s: LruSpec.Entries, n: nat, k: string)
    requires n <= |s|
    ensures LruSpec.Find(s[..n], k).Some? ==> LruSpec.Find(s, k) == LruSpec.Find(s[..n], k)
  {
    if n > 0 {
      FindInPrefix(s[1..], n - 1, k);
      assert s[..n][1..] == s[1..][..n - 1];
    }
  }

  lemma ServedIsDirect(env: Env, s: State, r: Request, t: Trouble)
    requires Injective(env.sha) && Coherent(env, s)
    ensures Coherent(env, Served(env, s, r, t).0)
    ensures Served(env, s, r, t).1.Body? ==> Direct(env, r) == Some(Served(env, s, r, t).1.data)
  {
    var (s', response) := Served(env, s, r, t);
    assert "cache/" <= StorageKey(env, r);
    if response.Body? {
      var data := response.data;
      RendersIsDirect(env, r, data);
      assert Renders(env, CacheKey(env, r), data);
      forall k
        ensures LruSpec.Find(s'.world.memory, k).Some? ==> Renders(env, k, LruSpec.Find(s'.world.memory, k).value)
      {
        MemoryAfter(env, s.world.memory, CacheKey(env, r), data, k);
      }
    }
  }

  lemma StepKeepsCoherent(env: Env, s: State, e: Event, s': State)
    requires Injective(env.sha) && Coherent(env, s) && Next(env, s, e, s')
    ensures Coherent(env, s')
    ensures e.Serve? && e.response.Body? ==> Direct(env, e.request) == Some(e.response.data)
  {
    match e
    case Serve(r, t, _) =>
      ServedIsDirect(env, s, r, t);
    case Land(n) =>
      var w := s.pending[n];
      assert w in s.pending;
      assert RendersStored(env, StorageKey(env, w.request), w.data);
      assert forall w' <- s'.pending :: w' in s.pending;
    case Lose(n) =>
      assert forall w' <- s'.pending :: w' in s.pending;
    case Clean(hash, outcome) =>
  }

  lemma {:induction false} CoherentAt(env: Env, states: seq<State>, events: seq<Event>, n: nat)
    requires Injective(env.sha) && Run(env, states, events) && Coherent(env, states[0]) && n <= |events|
    ensures Coherent(env, states[n])
  {
    hide Coherent, Next, Injective;
    if n > 0 {
      CoherentAt(env, states, events, n - 1);
      StepKeepsCoherent(env, states[n - 1], events[n - 1], states[n]);
    }
  }

  /** In every run, every cached entry and every body served is the direct rendering of its request. */
  lemma RunServesDirectRenderings(env: Env, states: seq<State>, events: seq<Event>)
    requires Injective(env.sha) && Run(env, states, events) && Coherent(env, states[0])
    ensures forall i | 0 <= i < |states| :: Coherent(env, states[i])
    ensures forall i | 0 <= i < |events| ::
              events[i].Serve? && events[i].response.Body? ==> Direct(env, events[i].request) == Some(events[i].response.data)
  {
    forall i | 0 <= i < |states|
      ensures Coherent(env, states[i])
    {
      CoherentAt(env, states, events, i);
    }
    forall i | 0 <= i < |events|
      ensures events[i].Serve? && events[i].response.Body? ==> Direct(env, events[i].request) == Some(events[i].response.data)
    {
      StepKeepsCoherent(env, states[i], events[i], states[i + 1]);
    }
  }

  // ---- The index covers what is cached ----

  predicate HasRow(env: Env, s: State, r: Request) {
    RowFor(env, r) in s.world.index
  }

  /** Every cached rendering of a source whose path carries a content hash has a row under that hash; only a write-back
      that was in flight during a cleanup of its hash may lack one. */
  ghost predicate Covered(env: Env, s: State) {
    && (forall r: Request :: ExtractContentHash(r.key) != "" && LruSpec.Find(s.world.memory, CacheKey(env, r)).Some? ==> HasRow(env, s, r))
    && (forall r: Request :: ExtractContentHash(r.key) != "" && StorageKey(env, r) in s.world.objects ==>
          HasRow(env, s, r) || StorageKey(env, r) in s.escaped)
    && (forall w <- s.pending :: ExtractContentHash(w.request.key) != "" ==>
          HasRow(env, s, w.request) || StorageKey(env, w.request) in s.escaped)
  }

  /** A request whose rendering shares a key with another request has the same row. */
  lemma SameKeySameRow(env: Env, r: Request, r': Request)
    requires Injective(env.sha)
    requires CacheKey(env, r) == CacheKey(env, r') || StorageKey(env, r) == StorageKey(env, r')
    ensures RowFor(env, r) == RowFor(env, r')
  {
    if StorageKey(env, r) == StorageKey(env, r') {
      SameStorageSameKey(env, r, r');
    }
    SameKeySameRendering(env, r, r');
  }

  /** A successful upsert adds the request's row and drops no other request's row. */
  lemma TrackedRows(env: Env, s: State, r: Request, r': Request)
    requires Injective(env.sha)
    ensures var s' := Tracked(env, s, r, false);
            && (HasRow(env, s, r') ==> HasRow(env, s', r'))
            && (ExtractContentHash(r.key) != "" ==> HasRow(env, s', r))
            && (StorageKey(env, r') in s.escaped ==> StorageKey(env, r') in s'.escaped || HasRow(env, s', r'))
  {
    if StorageKey(env, r) == StorageKey(env, r') {
      SameKeySameRow(env, r, r');
    }
  }

  lemma ServeKeepsCovered(env: Env, s: State, r: Request, t: Trouble)
    requires Injective(env.sha) && Covered(env, s) && !t.upsertFails
    ensures Covered(env, Served(env, s, r, t).0)
  {
    var (s', response) := Served(env, s, r, t);
    if response.Body? {
      var data := response.data;
      forall r': Request | ExtractContentHash(r'.key) != ""
        ensures LruSpec.Find(s'.world.memory, CacheKey(env, r')).Some? ==> HasRow(env, s', r')
        ensures StorageKey(env, r') in s'.world.objects ==> HasRow(env, s', r') || StorageKey(env, r') in s'.escaped
      {
        MemoryAfter(env, s.world.memory, CacheKey(env, r), data, CacheKey(env, r'));
        RowKept(env, s, s', r, t, r');
        if CacheKey(env, r') == CacheKey(env, r) {
          SameKeySameRow(env, r, r');
        }
      }
      forall w <- s'.pending | ExtractContentHash(w.request.key) != ""
        ensures HasRow(env, s', w.request) || StorageKey(env, w.request) in s'.escaped
      {
        RowKept(env, s, s', r, t, w.request);
      }
    }
  }

  lemma RowKept(env: Env, s: State, s': State, r: Request, t: Trouble, r': Request)
    requires Injective(env.sha) && !t.upsertFails && Served(env, s, r, t).0 == s' && Served(env, s, r, t).1.Body?
    ensures HasRow(env, s, r') ==> HasRow(env, s', r')
    ensures ExtractContentHash(r.key) != "" ==> HasRow(env, s', r)
    ensures StorageKey(env, r') in s.escaped ==> StorageKey(env, r') in s'.escaped || HasRow(env, s', r')
  {
    TrackedRows(env, s, r, r');
  }

  lemma CleanKeepsCovered(env: Env, s: State, hash: string, outcome: World)
    requires Covered(env, s) && Safe(hash, s.world, outcome)
    ensures Covered(env, Cleaned(env, s, hash, outcome))
  {
    var s' := State(outcome, s.pending, s.escaped + InFlight(env, s.pending, hash));
    forall r: Request | HasRow(env, s, r) && !HasRow(env, s', r)
      ensures ExtractContentHash(r.key) == hash
      ensures StorageKey(env, r) !in outcome.objects
      ensures LruSpec.Find(outcome.memory, CacheKey(env, r)).None?
    {
      assert RowFor(env, r) in s.world.index;
      assert StorageKey(env, r) != "";
    }
  }

  lemma StepKeepsCovered(env: Env, s: State, e: Event, s': State)
    requires Injective(env.sha) && Covered(env, s) && Next(env, s, e, s')
    requires e.Serve? ==> !e.trouble.upsertFails
    ensures Covered(env, s')
  {
    match e
    case Serve(r, t, _) =>
      ServeKeepsCovered(env, s, r, t);
    case Land(n) =>
      var w := s.pending[n];
      assert w in s.pending;
      assert forall w' <- s'.pending :: w' in s.pending;
      forall r: Request | StorageKey(env, r) == StorageKey(env, w.request)
        ensures RowFor(env, r) == RowFor(env, w.request)
      {
        SameKeySameRow(env, r, w.request);
      }
    case Lose(n) =>
      assert forall w' <- s'.pending :: w' in s.pending;
    case Clean(hash, outcome) =>
      CleanKeepsCovered(env, s, hash, outcome);
  }

  /** Index upserts never fail in this run. */
  predicate UpsertsWork(events: seq<Event>) {
    forall i | 0 <= i < |events| :: events[i].Serve? ==> !events[i].trouble.upsertFails
  }

  lemma {:induction false} CoveredAt(env: Env, states: seq<State>, events: seq<Event>, n: nat)
    requires Injective(env.sha) && Run(env, states, events) && UpsertsWork(events) && Covered(env, states[0]) && n <= |events|
    ensures Covered(env, states[n])
  {
    hide Covered, Next, Injective;
    if n > 0 {
      CoveredAt(env, states, events, n - 1);
      StepKeepsCovered(env, states[n - 1], events[n - 1], states[n]);
    }
  }

  /** No write-back of the hash is in flight when its cleanups run. */
  ghost predicate CleanedAtRest(env: Env, states: seq<State>, events: seq<Event>)
    requires |states| == |events| + 1
  {
    forall i | 0 <= i < |events| && events[i].Clean? :: InFlight(env, states[i].pending, events[i].hash) == {}
  }

  lemma {:induction false} NothingEscapes(env: Env, states: seq<State>, events: seq<Event>, n: nat)
    requires Run(env, states, events) && CleanedAtRest(env, states, events) && states[0].escaped == {} && n <= |events|
    ensures states[n].escaped == {}
  {
    if n > 0 {
      NothingEscapes(env, states, events, n - 1);
      assert Next(env, states[n - 1], events[n - 1], states[n]);
    }
  }

  /** A completed cleanup leaves no memory entry of the hash, and in storage only what escaped the index. */
  lemma CleanupLeavesOnlyEscaped(env: Env, s: State, hash: string, outcome: World, r: Request)
    requires Covered(env, s) && Safe(hash, s.world, outcome) && Gone(hash, s.world, outcome)
    requires hash != "" && ExtractContentHash(r.key) == hash
    ensures LruSpec.Find(outcome.memory, CacheKey(env, r)).None?
    ensures StorageKey(env, r) in outcome.objects ==> StorageKey(env, r) in s.escaped
  {
    if HasRow(env, s, r) {
      assert TrackedObject(s.world, hash, StorageKey(env, r));
      assert TrackedItem(s.world, hash, CacheKey(env, r));
    }
  }

  /** In every run with working upserts whose cleanups run while no write-back of their hash is in flight, a completed
      cleanup of a hash leaves no rendering of its sources in memory or storage, and none is on its way. */
  lemma CleanupIsComplete(env: Env, states: seq<State>, events: seq<Event>, hash: string, outcome: World, r: Request)
    requires Injective(env.sha) && Run(env, states, events) && UpsertsWork(events) && CleanedAtRest(env, states, events)
    requires Covered(env, states[0]) && states[0].escaped == {}
    requires var s := states[|events|];
             InFlight(env, s.pending, hash) == {} && Safe(hash, s.world, outcome) && Gone(hash, s.world, outcome)
    requires hash != "" && ExtractContentHash(r.key) == hash
    ensures LruSpec.Find(outcome.memory, CacheKey(env, r)).None?
    ensures StorageKey(env, r) !in outcome.objects
    ensures forall w <- states[|events|].pending :: w.request != r
  {
    CoveredAt(env, states, events, |events|);
    NothingEscapes(env, states, events, |events|);
    CleanupLeavesOnlyEscaped(env, states[|events|], hash, outcome, r);
    assert forall w <- states[|events|].pending :: StorageKey(env, w.request) !in InFlight(env, states[|events|].pending, hash);
  }

  /** An object of the hash that no cleanup of the hash can see. */
  ghost predicate Stray(env: Env, s: State, hash: string) {
    exists r: Request :: ExtractContentHash(r.key) == hash && StorageKey(env, r) in s.world.objects &&
                         !Owned(s.world, hash, StorageKey(env, r))
  }

  lemma CoveredIsInReach(env: Env, s: State, hash: string)
    requires Covered(env, s) && s.escaped == {} && hash != ""
    ensures !Stray(env, s, hash)
  {
    forall r: Request | ExtractContentHash(r.key) == hash && StorageKey(env, r) in s.world.objects
      ensures Owned(s.world, hash, StorageKey(env, r))
    {
      assert HasRow(env, s, r) && RowFor(env, r) in s.world.index;
      assert StorageKey(env, r)[0] == 'c';
    }
  }

  /** In every state, a write-back of the hash that lands after a cleanup took the hash's rows is out of reach. */
  lemma LateWriteBackEscapes(env: Env, s: State, n: nat, hash: string, outcome: World)
    requires n < |s.pending| && ExtractContentHash(s.pending[n].request.key) == hash
    requires Safe(hash, s.world, outcome) && outcome.index == RowsNotOf(s.world.index, hash)
    ensures var cleaned := Cleaned(env, s, hash, outcome);
            Next(env, s, Clean(hash, outcome), cleaned) && Next(env, cleaned, Land(n), Landed(env, cleaned, n)) &&
            Stray(env, Landed(env, cleaned, n), hash)
  {
    var after := Landed(env, Cleaned(env, s, hash, outcome), n);
    var r := s.pending[n].request;
    StorageKeyOutsidePrefixes(env, r, hash);
    assert StorageKey(env, r) in after.world.objects && !Owned(after.world, hash, StorageKey(env, r));
  }

  /** A continuation of a state. */
  ghost predicate Continues(env: Env, s: State, states: seq<State>, events: seq<Event>) {
    Run(env, states, events) && states[0] == s && UpsertsWork(events) && CleanedAtRest(env, states, events)
  }

  lemma FinalAtRest(env: Env, s: State, hash: string, states: seq<State>, events: seq<Event>)
    requires Injective(env.sha) && Covered(env, s) && s.escaped == {} && hash != "" && Continues(env, s, states, events)
    ensures !Stray(env, states[|events|], hash)
  {
    hide Covered, Next, Stray;
    CoveredAt(env, states, events, |events|);
    NothingEscapes(env, states, events, |events|);
    CoveredIsInReach(env, states[|events|], hash);
  }

  lemma LandingContinues(env: Env, s: State, n: nat)
    requires n < |s.pending|
    ensures Continues(env, s, [s, Landed(env, s, n)], [Land(n)])
  {
  }

  lemma FlightNumber(env: Env, pending: seq<Write>, hash: string) returns (n: nat)
    requires InFlight(env, pending, hash) != {}
    ensures n < |pending| && ExtractContentHash(pending[n].request.key) == hash
  {
    hide ExtractContentHash;
    n :| 0 <= n < |pending| && ExtractContentHash(pending[n].request.key) == hash;
  }

  /** A cleanup that took the rows of its hash is final exactly when no write-back of the hash was in flight: then, and
      only then, no continuation with working upserts whose cleanups run at rest ever leaves an object of the hash out
      of reach. */
  lemma CleanupIsFinalIff(env: Env, s: State, hash: string, outcome: World)
    requires Injective(env.sha) && Covered(env, s) && s.escaped == {} && hash != ""
    requires Safe(hash, s.world, outcome) && outcome.index == RowsNotOf(s.world.index, hash)
    ensures (forall states, events | Continues(env, Cleaned(env, s, hash, outcome), states, events) ::
               !Stray(env, states[|events|], hash)) <==>
            InFlight(env, s.pending, hash) == {}
  {
    hide Covered, Safe, Stray, Next, CleanedAtRest, UpsertsWork, Injective, InFlight, ExtractContentHash, Landed;
    var cleaned := Cleaned(env, s, hash, outcome);
    if InFlight(env, s.pending, hash) == {} {
      CleanKeepsCovered(env, s, hash, outcome);
      forall states, events | Continues(env, cleaned, states, events)
        ensures !Stray(env, states[|events|], hash)
      {
        FinalAtRest(env, cleaned, hash, states, events);
      }
    } else {
      var n := FlightNumber(env, s.pending, hash);
      LateWriteBackEscapes(env, s, n, hash, outcome);
      LandingContinues(env, cleaned, n);
    }
  }

  /** The escape is reachable: the handler's own write-back of one request, from the empty state. */
  lemma EscapeFromEmpty(env: Env, r: Request)
    returns (states: seq<State>, events: seq<Event>)
    requires r.key in env.source && Direct(env, r).Some? && ExtractContentHash(r.key) != ""
    ensures Run(env, states, events) && UpsertsWork(events)
    ensures states[0] == State(World(map[], [], [], {}, []), [], {})
    ensures var s := states[|events|];
            && StorageKey(env, r) in s.world.objects
            && RowsOf(s.world.index, ExtractContentHash(r.key)) == []
            && Gone(ExtractContentHash(r.key), s.world, s.world)
  {
    hide Safe, ExtractContentHash, CacheKey, StorageKey, Stray;
    var hash := ExtractContentHash(r.key);
    var s0 := State(World(map[], [], [], {}, []), [], {});
    var (s1, response) := Served(env, s0, r, Trouble(false, false, false));
    FirstServed(env, r);
    var emptied := World(map[], [], [], {}, LruSpec.Delete(s1.world.memory, CacheKey(env, r)));
    CleanedOnce(env, r, s1, emptied);
    LateWriteBackEscapes(env, s1, 0, hash, emptied);
    var s2 := Cleaned(env, s1, hash, emptied);
    var s3 := Landed(env, s2, 0);
    states := [s0, s1, s2, s3];
    events := [Serve(r, Trouble(false, false, false), response), Clean(hash, emptied), Land(0)];
    assert Next(env, s0, events[0], s1) && Next(env, s1, events[1], s2) && Next(env, s2, events[2], s3);
    StorageKeyOutsidePrefixes(env, r, hash);
    NothingTracked(env, r, hash, s3.world);
  }

  /** The first request for a source renders it, remembers it, tracks it and starts its write-back. */
  lemma FirstServed(env: Env, r: Request)
    requires r.key in env.source && Direct(env, r).Some? && ExtractContentHash(r.key) != ""
    ensures var s1 := Served(env, State(World(map[], [], [], {}, []), [], {}), r, Trouble(false, false, false)).0;
            s1.world.index == [RowFor(env, r)] && s1.pending == [Write(r, Direct(env, r).value)] &&
            s1.world.objects == map[] && s1.world.jobs == [] && s1.world.keyHashes == {}
  {
    hide ExtractContentHash, CacheKey, StorageKey, Direct;
  }

  lemma NothingTracked(env: Env, r: Request, hash: string, w: World)
    requires w.objects.Keys == {StorageKey(env, r)} && !UnderPrefixes(hash, StorageKey(env, r)) && w.index == []
    ensures Gone(hash, w, w) && RowsOf(w.index, hash) == []
  {
  }

  lemma CleanedOnce(env: Env, r: Request, s: State, emptied: World)
    requires s.world.objects == map[] && s.world.jobs == [] && s.world.keyHashes == {} && s.world.index == [RowFor(env, r)]
    requires emptied == World(map[], [], [], {}, LruSpec.Delete(s.world.memory, CacheKey(env, r)))
    ensures Safe(ExtractContentHash(r.key), s.world, emptied) && emptied.index == RowsNotOf(s.world.index, ExtractContentHash(r.key))
  {
    var hash := ExtractContentHash(r.key);
    assert RowFor(env, r) in s.world.index;
    assert TrackedItem(s.world, hash, CacheKey(env, r));
    SafeStart(hash, s.world);
    SafeAfterItem(hash, s.world, s.world, CacheKey(env, r));
    var dropped := s.world.(memory := emptied.memory);
    LruSpec.FindWithout(s.world.memory, CacheKey(env, r), CacheKey(env, r));
    SafeAfterRows(hash, s.world, dropped);
    assert RowsNotOf(s.world.index, hash) == [];
  }

  lemma StorageKeyOutsidePrefixes(env: Env, r: Request, hash: string)
    ensures !UnderPrefixes(hash, StorageKey(env, r))
  {
    assert StorageKey(env, r)[0] == 'c';
    assert HashPrefix(hash, "images")[0] == 'i' && HashPrefix(hash, "videos")[0] == 'v' && HashPrefix(hash, "audio")[0] == 'a';
  }
}
