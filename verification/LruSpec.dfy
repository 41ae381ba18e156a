/** The memory cache as a plain list of entries, most recently used first. */
module LruSpec {
  import opened Wrappers

  type Bytes = seq<bv8>

  datatype Entry = Entry(key: string, data: Bytes)

  type Entries = seq<Entry>

  function Total(s: Entries): nat {
    if s == [] then 0 else |s[0].data| + Total(s[1..])
  }

  predicate Distinct(s: Entries) {
    forall i, j | 0 <= i < j < |s| :: s[i].key != s[j].key
  }

  predicate Absent(s: Entries, key: string) {
    forall i | 0 <= i < |s| :: s[i].key != key
  }

  /** The bytes stored under a key: those of the first entry with that key. */
  function Find(s: Entries, key: string): Option<Bytes> {
    if s == [] then None
    else if s[0].key == key then Some(s[0].data)
    else Find(s[1..], key)
  }

  function Without(s: Entries, key: string): (r: Entries)
    ensures |r| <= |s|
    ensures Absent(r, key)
  {
    if s == [] then []
    else if s[0].key == key then Without(s[1..], key)
    else [s[0]] + Without(s[1..], key)
  }

  /** Evicting from the tail until the total fits. */
  function Trim(s: Entries, maxBytes: int): Entries {
    if s == [] || Total(s) <= maxBytes then s else Trim(s[..|s| - 1], maxBytes)
  }

  function Get(s: Entries, key: string): Entries {
    match Find(s, key)
    case None => s
    case Some(data) => [Entry(key, data)] + Without(s, key)
  }

  function Set(s: Entries, maxBytes: int, key: string, data: Bytes): Entries {
    if maxBytes <= 0 || |data| > maxBytes then s
    else Trim([Entry(key, data)] + Without(s, key), maxBytes)
  }

  function Delete(s: Entries, key: string): Entries {
    Without(s, key)
  }

  // ---- Lists ----

  lemma {:induction false} TotalOfConcat(a: Entries, b: Entries)
    ensures Total(a + b) == Total(a) + Total(b)
  {
    if a == [] {
      assert a + b == b;
    } else {
      TotalOfConcat(a[1..], b);
      assert (a + b)[1..] == a[1..] + b;
    }
  }

  lemma WithoutCons(e: Entry, s: Entries, key: string)
    ensures Without([e] + s, key) == (if e.key == key then [] else [e]) + Without(s, key)
    ensures Without([], key) == []
  {
    assert ([e] + s)[1..] == s;
  }

  lemma Grouped(a: Entries, b: Entries, c: Entries)
    ensures a + b + c == a + (b + c)
  {
  }

  lemma {:induction false} WithoutOfConcat(a: Entries, b: Entries, key: string)
    ensures Without(a + b, key) == Without(a, key) + Without(b, key)
  {
    hide Without;
    if a == [] {
      assert a + b == b;
      WithoutCons(Entry(key, []), a, key);
    } else {
      var front, rest := [a[0]], a[1..];
      assert a == front + rest;
      WithoutOfConcat(rest, b, key);
      Grouped(front, rest, b);
      WithoutCons(a[0], rest, key);
      WithoutCons(a[0], rest + b, key);
      Grouped(if a[0].key == key then [] else [a[0]], Without(rest, key), Without(b, key));
    }
  }

  lemma {:induction false} WithoutAbsent(s: Entries, key: string)
    requires Absent(s, key)
    ensures Without(s, key) == s
    ensures Find(s, key) == None
  {
    if s != [] {
      WithoutAbsent(s[1..], key);
    }
  }

  /** With distinct keys, dropping a key drops one position. */
  lemma {:induction false} WithoutAt(s: Entries, k: nat)
    requires Distinct(s) && k < |s|
    ensures Without(s, s[k].key) == s[..k] + s[k + 1..]
    ensures Find(s, s[k].key) == Some(s[k].data)
  {
    FindAt(s, k);
    if k == 0 {
      WithoutAbsent(s[1..], s[0].key);
    } else {
      var rest := s[1..];
      WithoutAt(rest, k - 1);
      assert rest[..k - 1] + rest[k..] == s[1..k] + s[k + 1..];
      assert [s[0]] + (s[1..k] + s[k + 1..]) == s[..k] + s[k + 1..];
    }
  }

  lemma {:induction false} FindAt(s: Entries, k: nat)
    requires Distinct(s) && k < |s|
    ensures Find(s, s[k].key) == Some(s[k].data)
  {
    if k > 0 {
      FindAt(s[1..], k - 1);
    }
  }

  /** Where a key that is present sits. */
  lemma {:induction false} FindIndex(s: Entries, key: string) returns (k: nat)
    ensures Find(s, key).Some? ==> k < |s| && s[k].key == key
    ensures Find(s, key).None? ==> Absent(s, key)
  {
    k := 0;
    if s != [] && s[0].key != key {
      var i := FindIndex(s[1..], key);
      k := i + 1;
    }
  }

  lemma {:induction false} FindWithout(s: Entries, key: string, other: string)
    ensures Find(Without(s, key), other) == if other == key then None else Find(s, other)
  {
    if s != [] {
      FindWithout(s[1..], key, other);
    }
  }

  // ---- Eviction ----

  lemma {:induction false} TotalOfPrefix(s: Entries, m: nat, n: nat)
    requires m <= n <= |s|
    ensures Total(s[..m]) <= Total(s[..n])
  {
    assert s[..n] == s[..m] + s[m..n];
    TotalOfConcat(s[..m], s[m..n]);
  }

  /** Eviction keeps the longest prefix that fits. */
  lemma {:induction false} TrimIsLongestPrefix(s: Entries, maxBytes: nat)
    ensures Trim(s, maxBytes) <= s
    ensures forall m | 0 <= m <= |s| :: Total(s[..m]) <= maxBytes <==> m <= |Trim(s, maxBytes)|
  {
    if s == [] || Total(s) <= maxBytes {
      assert s[..|s|] == s;
      forall m | 0 <= m <= |s|
        ensures Total(s[..m]) <= maxBytes
      {
        TotalOfPrefix(s, m, |s|);
      }
    } else {
      var init := s[..|s| - 1];
      TrimIsLongestPrefix(init, maxBytes);
      assert s[..|s|] == s;
      forall m | 0 <= m < |s|
        ensures s[..m] == init[..m]
      {
      }
      assert |Trim(s, maxBytes)| < |s|;
    }
  }

  // ---- Invariants of a cache ----

  /** What every cache with this limit keeps: each key once, and no more bytes than allowed. */
  predicate Cache(s: Entries, maxBytes: int) {
    Distinct(s) && Total(s) <= (if maxBytes > 0 then maxBytes else 0) && (maxBytes <= 0 ==> s == [])
  }

  lemma {:induction false} WithoutKeepsCache(s: Entries, key: string)
    requires Distinct(s)
    ensures Distinct(Without(s, key)) && Total(Without(s, key)) <= Total(s)
    ensures Find(s, key).Some? ==> Total(Without(s, key)) + |Find(s, key).value| == Total(s)
  {
    var k := FindIndex(s, key);
    if Find(s, key).Some? {
      WithoutAt(s, k);
      TotalWithout(s, k);
    } else {
      WithoutAbsent(s, key);
    }
  }

  lemma TotalWithout(s: Entries, k: nat)
    requires k < |s|
    ensures Total(s[..k] + s[k + 1..]) + |s[k].data| == Total(s)
  {
    assert s == s[..k] + ([s[k]] + s[k + 1..]);
    TotalOfConcat(s[..k], [s[k]] + s[k + 1..]);
    TotalOfConcat([s[k]], s[k + 1..]);
    TotalOfConcat(s[..k], s[k + 1..]);
  }

  lemma GetKeepsTotal(s: Entries, key: string)
    requires Distinct(s)
    ensures Total(Get(s, key)) == Total(s)
  {
    WithoutKeepsCache(s, key);
    if Find(s, key).Some? {
      FrontKeepsDistinct(s, key, Find(s, key).value);
    }
  }

  lemma FrontKeepsDistinct(s: Entries, key: string, data: Bytes)
    requires Distinct(s)
    ensures Distinct([Entry(key, data)] + Without(s, key))
    ensures Total([Entry(key, data)] + Without(s, key)) == |data| + Total(Without(s, key))
  {
    WithoutKeepsCache(s, key);
    var rest := Without(s, key);
  }

  /** Every operation keeps the invariant. */
  lemma OperationsKeepCache(s: Entries, maxBytes: int, key: string, data: Bytes)
    requires Cache(s, maxBytes)
    ensures Cache(Get(s, key), maxBytes)
    ensures Cache(Set(s, maxBytes, key, data), maxBytes)
    ensures Cache(Delete(s, key), maxBytes)
  {
    WithoutKeepsCache(s, key);
    if Find(s, key).Some? {
      FrontKeepsDistinct(s, key, Find(s, key).value);
    }
    if maxBytes > 0 && |data| <= maxBytes {
      FrontKeepsDistinct(s, key, data);
      var front := [Entry(key, data)] + Without(s, key);
      TrimIsLongestPrefix(front, maxBytes);
      assert front[..|Trim(front, maxBytes)|] == Trim(front, maxBytes);
    }
  }

  /** Storing an item that fits leaves the longest prefix of the item and the other entries that fits, so the item
      itself stays, in front; an item that does not fit leaves even an older value of its key in place. */
  lemma SetMeaning(s: Entries, maxBytes: int, key: string, data: Bytes)
    requires Cache(s, maxBytes)
    ensures var r, all := Set(s, maxBytes, key, data), [Entry(key, data)] + Without(s, key);
            if |data| <= maxBytes && maxBytes > 0 then
              && r != [] && r[0] == Entry(key, data)
              && r <= all
              && forall m | 0 <= m <= |all| :: Total(all[..m]) <= maxBytes <==> m <= |r|
            else r == s
  {
    if |data| <= maxBytes && maxBytes > 0 {
      var all := [Entry(key, data)] + Without(s, key);
      TrimIsLongestPrefix(all, maxBytes);
      assert all[..1] == [Entry(key, data)];
      assert Total(all[..1]) == |data|;
    }
  }

  lemma {:induction false} TrimKeepsFirst(s: Entries, maxBytes: int)
    requires s != [] && |s[0].data| <= maxBytes
    ensures Trim(s, maxBytes) != [] && Trim(s, maxBytes)[0] == s[0]
  {
    if Total(s) > maxBytes {
      if |s| > 1 {
        TrimKeepsFirst(s[..|s| - 1], maxBytes);
      } else {
        assert Total(s) == |s[0].data| + Total(s[1..]);
      }
    }
  }

  predicate MostRecent(s: Entries, key: string, data: Bytes) {
    s != [] && s[0] == Entry(key, data)
  }

  /** What has been stored and fits, or has been found, is the most recent entry and is found again. */
  lemma FoundAgain(s: Entries, maxBytes: int, key: string, data: Bytes)
    ensures 0 < maxBytes && |data| <= maxBytes ==>
              MostRecent(Set(s, maxBytes, key, data), key, data) && Find(Set(s, maxBytes, key, data), key) == Some(data)
    ensures Find(Get(s, key), key) == Find(s, key)
    ensures Find(s, key).Some? ==> MostRecent(Get(s, key), key, Find(s, key).value)
  {
    if 0 < maxBytes && |data| <= maxBytes {
      TrimKeepsFirst([Entry(key, data)] + Without(s, key), maxBytes);
    }
  }

  // ---- Any use of the cache ----

  datatype Operation = GetOp(key: string) | SetOp(key: string, data: Bytes) | DeleteOp(key: string)

  function Apply(s: Entries, maxBytes: int, op: Operation): Entries {
    match op
    case GetOp(key) => Get(s, key)
    case SetOp(key, data) => Set(s, maxBytes, key, data)
    case DeleteOp(key) => Delete(s, key)
  }

  /** The cache after some operations, starting empty. */
  function AfterAll(ops: seq<Operation>, maxBytes: int): Entries {
    if ops == [] then [] else Apply(AfterAll(ops[..|ops| - 1], maxBytes), maxBytes, ops[|ops| - 1])
  }

  /** After any operations keys are distinct and the total is within the limit. */
  lemma {:induction false} AnyUseIsCache(ops: seq<Operation>, maxBytes: int)
    ensures Cache(AfterAll(ops, maxBytes), maxBytes)
  {
    if ops != [] {
      var op := ops[|ops| - 1];
      AnyUseIsCache(ops[..|ops| - 1], maxBytes);
      OperationsKeepCache(AfterAll(ops[..|ops| - 1], maxBytes), maxBytes, op.key, if op.SetOp? then op.data else []);
    }
  }

  // ---- Two caches of different size ----

  /** What the image handler does with a key: look it up and store its bytes on a miss, or drop it. */
  datatype Event = Lookup(key: string) | Drop(key: string)

  function Step(s: Entries, maxBytes: int, data: string -> Bytes, e: Event): Entries {
    match e
    case Lookup(key) => if Find(s, key).Some? then Get(s, key) else Set(s, maxBytes, key, data(key))
    case Drop(key) => Delete(s, key)
  }

  /** The cache after a trace, starting empty. */
  function Run(trace: seq<Event>, maxBytes: int, data: string -> Bytes): Entries {
    if trace == [] then []
    else Step(Run(trace[..|trace| - 1], maxBytes, data), maxBytes, data, trace[|trace| - 1])
  }

  /** Every entry holds the fixed bytes of its key. */
  predicate Holds(s: Entries, data: string -> Bytes) {
    forall i | 0 <= i < |s| :: s[i].data == data(s[i].key)
  }

  lemma {:induction false} WithoutHolds(s: Entries, data: string -> Bytes, key: string)
    requires Holds(s, data)
    ensures Holds(Without(s, key), data)
    ensures Find(s, key).Some? ==> Find(s, key).value == data(key)
  {
    if s != [] {
      WithoutHolds(s[1..], data, key);
    }
  }

  lemma StepKeepsHolds(s: Entries, maxBytes: int, data: string -> Bytes, e: Event)
    requires Cache(s, maxBytes) && Holds(s, data)
    ensures Cache(Step(s, maxBytes, data, e), maxBytes) && Holds(Step(s, maxBytes, data, e), data)
  {
    WithoutHolds(s, data, e.key);
    OperationsKeepCache(s, maxBytes, e.key, data(e.key));
    SetMeaning(s, maxBytes, e.key, data(e.key));
  }

  lemma {:induction false} RunIsCache(trace: seq<Event>, maxBytes: int, data: string -> Bytes)
    ensures Cache(Run(trace, maxBytes, data), maxBytes) && Holds(Run(trace, maxBytes, data), data)
  {
    if trace != [] {
      RunIsCache(trace[..|trace| - 1], maxBytes, data);
      StepKeepsHolds(Run(trace[..|trace| - 1], maxBytes, data), maxBytes, data, trace[|trace| - 1]);
    }
  }

  lemma TrimKeepsPrefix(a: Entries, b: Entries, small: nat, large: nat)
    requires a <= b && small <= large
    ensures Trim(a, small) <= Trim(b, large)
  {
    TrimIsLongestPrefix(a, small);
    TrimIsLongestPrefix(b, large);
    var n := |Trim(a, small)|;
    assert Trim(a, small) == a[..n] == b[..n];
    assert Trim(b, large) == b[..|Trim(b, large)|];
  }

  lemma WithoutKeepsPrefix(a: Entries, b: Entries, key: string)
    requires a <= b
    ensures Without(a, key) <= Without(b, key)
  {
    assert b == a + b[|a|..];
    WithoutOfConcat(a, b[|a|..], key);
  }

  /** An item between the two limits is stored by the larger cache only. */
  predicate Straddles(size: nat, small: int, large: int) {
    small < size <= large
  }

  lemma StepKeepsInclusion(a: Entries, b: Entries, small: int, large: int, data: string -> Bytes, e: Event)
    requires 0 < small <= large
    requires Cache(a, small) && Holds(a, data) && Cache(b, large) && Holds(b, data)
    requires a <= b
    requires e.Lookup? ==> !Straddles(|data(e.key)|, small, large)
    ensures Step(a, small, data, e) <= Step(b, large, data, e)
  {
    var key := e.key;
    WithoutKeepsPrefix(a, b, key);
    WithoutHolds(a, data, key);
    WithoutHolds(b, data, key);
    var i := FindIndex(a, key);
    if e.Lookup? {
      var front := [Entry(key, data(key))];
      assert front + Without(a, key) <= front + Without(b, key);
      if |data(key)| <= small {
        TrimKeepsPrefix(front + Without(a, key), front + Without(b, key), small, large);
        TrimKeepsPrefix(front + Without(a, key), front + Without(a, key), small, large);
        TrimIsLongestPrefix(front + Without(a, key), small);
        if Find(a, key).Some? {
          FindAt(b, i);
        }
      } else {
        TooBigIsAbsent(a, small, key, data);
        TooBigIsAbsent(b, large, key, data);
      }
    }
  }

  /** A key whose bytes exceed the limit is never cached. */
  lemma TooBigIsAbsent(s: Entries, maxBytes: int, key: string, data: string -> Bytes)
    requires Cache(s, maxBytes) && Holds(s, data) && maxBytes > 0
    requires |data(key)| > maxBytes
    ensures Find(s, key) == None
  {
    forall k | 0 <= k < |s|
      ensures s[k].key != key
    {
      EntryWithinTotal(s, k);
    }
    WithoutAbsent(s, key);
  }

  lemma {:induction false} EntryWithinTotal(s: Entries, k: nat)
    requires k < |s|
    ensures |s[k].data| <= Total(s)
  {
    if k > 0 {
      EntryWithinTotal(s[1..], k - 1);
    }
  }

  lemma {:induction false} StackInclusion(trace: seq<Event>, small: int, large: int, data: string -> Bytes)
    requires small <= large
    requires forall e <- trace :: e.Lookup? ==> !Straddles(|data(e.key)|, small, large)
    ensures Run(trace, small, data) <= Run(trace, large, data)
  {
    RunIsCache(trace, small, data);
    if trace != [] && small > 0 {
      var init, last := trace[..|trace| - 1], trace[|trace| - 1];
      assert last in trace;
      StackInclusion(init, small, large, data);
      RunIsCache(init, small, data);
      RunIsCache(init, large, data);
      StepKeepsInclusion(Run(init, small, data), Run(init, large, data), small, large, data, last);
    }
  }

  /** With a limit that nothing fits, the cache stays empty. */
  lemma {:induction false} NothingFits(trace: seq<Event>, maxBytes: int, data: string -> Bytes)
    requires forall e <- trace :: |data(e.key)| > maxBytes
    ensures Run(trace, maxBytes, data) == []
  {
    if trace != [] {
      assert trace[|trace| - 1] in trace;
      NothingFits(trace[..|trace| - 1], maxBytes, data);
    }
  }

  /** Two lookups that break the inclusion: one key both caches store, then one only the larger stores. */
  lemma StraddlingBreaksInclusion(fits: string, straddles: string, small: int, large: int, data: string -> Bytes)
    requires 0 < small <= large
    requires |data(fits)| <= small && Straddles(|data(straddles)|, small, large)
    ensures !(Run([Lookup(fits), Lookup(straddles)], small, data) <= Run([Lookup(fits), Lookup(straddles)], large, data))
  {
    var trace := [Lookup(fits), Lookup(straddles)];
    assert trace[..1] == [Lookup(fits)];
    FirstLookup(fits, small, data);
    FirstLookup(fits, large, data);
    var a := [Entry(fits, data(fits))];
    SetMeaning(a, small, straddles, data(straddles));
    SetMeaning(a, large, straddles, data(straddles));
    assert fits != straddles;
    assert Find(a[1..], straddles) == None;
    assert Run(trace, small, data) == a;
    assert Run(trace, large, data)[0].key == straddles;
  }

  lemma FirstLookup(key: string, maxBytes: int, data: string -> Bytes)
    requires 0 < maxBytes && |data(key)| <= maxBytes
    ensures Run([Lookup(key)], maxBytes, data) == [Entry(key, data(key))]
    ensures Cache([Entry(key, data(key))], maxBytes)
  {
    assert [Lookup(key)][..0] == [];
    assert Run([], maxBytes, data) == [];
    SetMeaning([], maxBytes, key, data(key));
    assert [Entry(key, data(key))] + Without([], key) == [Entry(key, data(key))];
    RunIsCache([Lookup(key)], maxBytes, data);
  }

  /** Stack inclusion, exactly: a smaller cache is a prefix of a larger one after every trace if and only if it stores
      nothing at all, or no item falls between the two limits. */
  lemma StackInclusionIff(small: int, large: int, data: string -> Bytes)
    requires small <= large
    ensures (forall trace :: Run(trace, small, data) <= Run(trace, large, data)) <==>
            || small <= 0
            || (forall key :: |data(key)| > small)
            || (forall key :: !Straddles(|data(key)|, small, large))
  {
    if small <= 0 {
      forall trace
        ensures Run(trace, small, data) <= Run(trace, large, data)
      {
        RunIsCache(trace, small, data);
      }
    } else if forall key :: |data(key)| > small {
      forall trace
        ensures Run(trace, small, data) <= Run(trace, large, data)
      {
        NothingFits(trace, small, data);
      }
    } else if forall key :: !Straddles(|data(key)|, small, large) {
      forall trace
        ensures Run(trace, small, data) <= Run(trace, large, data)
      {
        StackInclusion(trace, small, large, data);
      }
    } else {
      var fits :| !(|data(fits)| > small);
      var key :| Straddles(|data(key)|, small, large);
      StraddlingBreaksInclusion(fits, key, small, large, data);
    }
  }

  /** Raising the limit never turns a memory hit into a miss. */
  lemma HitsOnlyGrow(trace: seq<Event>, small: int, large: int, data: string -> Bytes, key: string)
    requires small <= large
    requires forall e <- trace :: e.Lookup? ==> !Straddles(|data(e.key)|, small, large)
    requires Find(Run(trace, small, data), key).Some?
    ensures Find(Run(trace, large, data), key) == Find(Run(trace, small, data), key)
  {
    StackInclusion(trace, small, large, data);
    RunIsCache(trace, small, data);
    RunIsCache(trace, large, data);
    var a, b := Run(trace, small, data), Run(trace, large, data);
    var i := FindIndex(a, key);
    FindAt(a, i);
    FindAt(b, i);
  }
}
