/** The state that requests and cleanups share, and the object keys that belong to a content hash. */
module Media {
  import LruSpec

  type Bytes = LruSpec.Bytes

  /** A row of image_cache_entries. */
  datatype IndexRow = IndexRow(hash: string, cacheKey: string, storageKey: string)

  /** The columns of a jobs row that cleanup looks at. */
  datatype JobRow = JobRow(id: string, hash: string, status: string)

  /** Media bucket, cache index, job rows, hashes with stream keys, and this server's memory cache. */
  datatype World = World(
    objects: map<string, Bytes>,
    index: seq<IndexRow>,
    jobs: seq<JobRow>,
    keyHashes: set<string>,
    memory: LruSpec.Entries)

  // ---- Object keys ----

  function ShortPrefix(hash: string): string {
    if |hash| >= 2 then hash[..2] else hash
  }

  /** s3PrefixForHash */
  function HashPrefix(hash: string, kind: string): string {
    kind + "/" + ShortPrefix(hash) + "/" + hash + "/"
  }

  /** imageS3Key, videoS3Key and audioS3Key write this form, with the kind "images", "videos" or "audio". */
  function MediaKey(hash: string, kind: string, rest: string): string {
    kind + "/" + ShortPrefix(hash) + "/" + hash + "/" + rest
  }

  /** The cover of a video, and what its cleanup lists. */
  lemma KeyOfCover()
    ensures MediaKey("abcd", "videos", "cover.jpg") == "videos/ab/abcd/cover.jpg"
    ensures HashPrefix("abcd", "videos") == "videos/ab/abcd/"
  {
    assert "abcd"[..2] == "ab";
  }

  lemma MediaKeyInjective(hash: string, kind: string, a: string, b: string)
    requires MediaKey(hash, kind, a) == MediaKey(hash, kind, b)
    ensures a == b
  {
    var head := kind + "/" + ShortPrefix(hash) + "/" + hash + "/";
    assert MediaKey(hash, kind, a)[|head|..] == a && MediaKey(hash, kind, b)[|head|..] == b;
  }

  predicate HasPrefix(s: string, prefix: string) {
    prefix <= s
  }

  predicate UnderPrefixes(hash: string, key: string) {
    || HasPrefix(key, HashPrefix(hash, "images"))
    || HasPrefix(key, HashPrefix(hash, "videos"))
    || HasPrefix(key, HashPrefix(hash, "audio"))
  }

  lemma MediaKeyUnderOwnPrefix(hash: string, kind: string, rest: string)
    ensures HasPrefix(MediaKey(hash, kind, rest), HashPrefix(hash, kind))
  {
    assert MediaKey(hash, kind, rest) == HashPrefix(hash, kind) + rest;
  }

  predicate Nested(hash: string, other: string) {
    hash + "/" <= other + "/" || other + "/" <= hash + "/"
  }

  predicate OnlySlashes(s: string) {
    forall c <- s :: c == '/'
  }

  /** What the kind of an object is followed by. */
  function Folder(hash: string): string {
    ShortPrefix(hash) + "/" + hash + "/"
  }

  predicate Comparable(a: string, b: string) {
    a <= b || b <= a
  }

  /** A hash of one byte and a longer one stand behind different short prefixes, which meet in slashes only. */
  predicate Overlap(hash: string, other: string) {
    if |hash| >= 2 <==> |other| >= 2 then Nested(hash, other)
    else OnlySlashes(ShortPrefix(hash)) && OnlySlashes(ShortPrefix(other))
  }

  lemma FolderOfKey(hash: string, other: string, kind: string, rest: string)
    ensures HasPrefix(MediaKey(other, kind, rest), HashPrefix(hash, kind)) <==> Folder(hash) <= Folder(other) + rest
  {
    var head := kind + "/";
    assert HashPrefix(hash, kind) == head + Folder(hash);
    assert MediaKey(other, kind, rest) == head + (Folder(other) + rest);
    if Folder(hash) <= Folder(other) + rest {
      assert (head + (Folder(other) + rest))[..|head| + |Folder(hash)|] == head + Folder(hash);
    }
    if HashPrefix(hash, kind) <= MediaKey(other, kind, rest) {
      assert (head + Folder(hash))[|head|..] == Folder(hash);
      assert (head + (Folder(other) + rest))[|head|..] == Folder(other) + rest;
    }
  }

  lemma ComparableFolders(hash: string, other: string)
    ensures (exists rest :: Folder(hash) <= Folder(other) + rest) <==> Comparable(Folder(hash), Folder(other))
  {
    var a, b := Folder(hash), Folder(other);
    if rest :| a <= b + rest {
      if |a| <= |b| {
        assert b[..|a|] == (b + rest)[..|a|];
      } else {
        assert a[..|b|] == (b + rest)[..|b|];
      }
    }
    if a <= b {
      assert a <= b + "";
    }
    if b <= a {
      assert a == b + a[|b|..];
    }
  }

  /** Longer hashes: both folders start with two bytes and a slash. */
  lemma ComparableLong(hash: string, other: string)
    requires |hash| >= 2 && |other| >= 2
    ensures Comparable(Folder(hash), Folder(other)) <==> Nested(hash, other)
  {
    var a, b := Folder(hash), Folder(other);
    assert a == hash[..2] + "/" + (hash + "/") && b == other[..2] + "/" + (other + "/");
    assert a[3..] == hash + "/" && b[3..] == other + "/";
    assert a[..2] == hash[..2] == (hash + "/")[..2] && b[..2] == other[..2] == (other + "/")[..2];
    PrefixTail(a, b, 3);
    PrefixTail(b, a, 3);
    if Nested(hash, other) {
      assert (hash + "/")[..2] == (other + "/")[..2];
      assert a[..3] == hash[..2] + "/" && b[..3] == other[..2] + "/";
    }
  }

  /** Prefixes, before and after a cut. */
  lemma PrefixTail(a: string, b: string, n: nat)
    requires n <= |a| && n <= |b|
    ensures a <= b <==> a[..n] == b[..n] && a[n..] <= b[n..]
  {
    if a <= b {
      assert a == b[..|a|];
      assert a[..n] == b[..|a|][..n] == b[..n];
      assert a[n..] == b[..|a|][n..] == b[n..][..|a| - n];
    }
    if a[..n] == b[..n] && a[n..] <= b[n..] {
      assert a == a[..n] + a[n..];
      assert b[..|a|] == b[..n] + b[n..][..|a| - n];
    }
  }

  lemma ComparableShort(hash: string, other: string)
    requires |hash| == 1 && |other| == 1
    ensures Comparable(Folder(hash), Folder(other)) <==> Nested(hash, other)
  {
    var a, b := Folder(hash), Folder(other);
    assert a[0] == hash[0] && b[0] == other[0] && |a| == |b| == 4;
    assert (hash + "/")[0] == hash[0] && (other + "/")[0] == other[0];
    if hash[0] == other[0] {
      assert hash == other;
    }
  }

  lemma ComparableMixed(hash: string, other: string)
    requires |hash| == 1 && |other| >= 2
    ensures Comparable(Folder(hash), Folder(other)) <==> OnlySlashes(ShortPrefix(hash)) && OnlySlashes(ShortPrefix(other))
  {
    var a, b := Folder(hash), Folder(other);
    var c, d, e := hash[0], other[0], other[1];
    assert a == [c, '/', c, '/'] && |b| >= 6;
    assert b[..4] == [d, e, '/', d];
    PrefixTail(a, b, 4);
    assert a[..4] == a && a[4..] == [];
    assert a[0] == c && a[1] == '/' && a[2] == c && a[3] == '/';
    assert b[..4][0] == d && b[..4][1] == e && b[..4][2] == '/' && b[..4][3] == d;
    assert ShortPrefix(hash) == [c] && ShortPrefix(other) == [d, e];
    assert c in [c] && d in [d, e] && e in [d, e];
  }

  /** For hashes of any length, some key of one hash lies under the prefix of another exactly when a slash puts one
      hash below the other. */
  lemma PrefixesOverlapIff(hash: string, other: string, kind: string)
    requires hash != "" && other != ""
    ensures (exists rest :: HasPrefix(MediaKey(other, kind, rest), HashPrefix(hash, kind))) <==> Overlap(hash, other)
  {
    hide HasPrefix, MediaKey, HashPrefix, Folder, Comparable, Overlap;
    forall rest
      ensures HasPrefix(MediaKey(other, kind, rest), HashPrefix(hash, kind)) <==> Folder(hash) <= Folder(other) + rest
    {
      FolderOfKey(hash, other, kind, rest);
    }
    ComparableFolders(hash, other);
    ComparableIff(hash, other);
  }

  lemma ComparableIff(hash: string, other: string)
    requires hash != "" && other != ""
    ensures Comparable(Folder(hash), Folder(other)) <==> Overlap(hash, other)
  {
    hide Folder, Nested, OnlySlashes;
    if |hash| >= 2 && |other| >= 2 {
      ComparableLong(hash, other);
    } else if |hash| == 1 && |other| == 1 {
      ComparableShort(hash, other);
    } else if |hash| == 1 {
      ComparableMixed(hash, other);
    } else {
      ComparableMixed(other, hash);
    }
  }

  /** Hashes without a slash never reach each other's objects. */
  lemma SlashFreeHashesAreApart(hash: string, other: string, kind: string, rest: string)
    requires hash != "" && other != "" && '/' !in hash && '/' !in other && hash != other
    ensures !HasPrefix(MediaKey(other, kind, rest), HashPrefix(hash, kind))
  {
    hide HasPrefix, MediaKey, HashPrefix;
    PrefixesOverlapIff(hash, other, kind);
    SlashEnds(hash, other);
    SlashEnds(other, hash);
    assert ShortPrefix(hash)[0] in hash;
  }

  lemma SlashEnds(a: string, b: string)
    requires '/' !in b
    ensures a + "/" <= b + "/" ==> a == b
  {
    if a + "/" <= b + "/" {
      assert (b + "/")[|a|] == '/';
      assert a == (b + "/")[..|a|];
    }
  }

  // ---- Rows of a hash ----

  function RowsOf(index: seq<IndexRow>, hash: string): (r: seq<IndexRow>)
    ensures forall row :: row in r <==> row in index && row.hash == hash
  {
    if index == [] then []
    else (if index[0].hash == hash then [index[0]] else []) + RowsOf(index[1..], hash)
  }

  function RowsNotOf(index: seq<IndexRow>, hash: string): (r: seq<IndexRow>)
    ensures forall row :: row in r <==> row in index && row.hash != hash
  {
    if index == [] then []
    else (if index[0].hash != hash then [index[0]] else []) + RowsNotOf(index[1..], hash)
  }

  function JobsOf(jobs: seq<JobRow>, hash: string): (r: seq<JobRow>)
    ensures forall job :: job in r <==> job in jobs && job.hash == hash
  {
    if jobs == [] then []
    else (if jobs[0].hash == hash then [jobs[0]] else []) + JobsOf(jobs[1..], hash)
  }

  function JobsNotOf(jobs: seq<JobRow>, hash: string): (r: seq<JobRow>)
    ensures forall job :: job in r <==> job in jobs && job.hash != hash
  {
    if jobs == [] then []
    else (if jobs[0].hash != hash then [jobs[0]] else []) + JobsNotOf(jobs[1..], hash)
  }
}
