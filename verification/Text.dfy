/** Option and Result, used where the Go code returns a pointer or a value with an error. */
module Wrappers {
  datatype Option<+T> = None | Some(value: T)

  datatype Result<+T> = Ok(value: T) | Err
}

/** Byte strings: every char stands for one byte of a Go string. */
module Text {

  // ---- Separators ----

  /** A text cut at the first occurrence of c can be cut in one way only. */
  lemma CutFirst(a: string, b: string, a': string, b': string, c: char)
    requires a + [c] + b == a' + [c] + b'
    requires c !in a && c !in a'
    ensures a == a' && b == b'
  {
    var s := a + [c] + b;
    assert s[|a|] == c && s[|a'|] == c;
    assert |a| == |a'|;
    assert a == s[..|a|] == a';
    assert b == s[|a| + 1..] == b';
  }

  /** A text cut at the last occurrence of c can be cut in one way only. */
  lemma CutLast(a: string, b: string, a': string, b': string, c: char)
    requires a + [c] + b == a' + [c] + b'
    requires c !in b && c !in b'
    ensures a == a' && b == b'
  {
    var s := a + [c] + b;
    assert s[|a|] == c && s[|a'|] == c;
    assert |a| == |a'|;
    assert a == s[..|a|] == a';
    assert b == s[|a| + 1..] == b';
  }

  /** strings.SplitSeq with a one-byte separator; never empty. */
  function Split(s: string, sep: char): (parts: seq<string>)
    ensures |parts| > 0
    ensures forall i | 0 <= i < |parts| :: sep !in parts[i]
  {
    if s == [] then
      [[]]
    else
      var rest := Split(s[1..], sep);
      if s[0] == sep then [[]] + rest else [[s[0]] + rest[0]] + rest[1..]
  }

  /** strings.Join with a one-byte separator. */
  function Join(parts: seq<string>, sep: char): string {
    if |parts| == 0 then []
    else if |parts| == 1 then parts[0]
    else parts[0] + [sep] + Join(parts[1..], sep)
  }

  lemma {:induction false} SplitCons(p: string, s: string, sep: char)
    requires sep !in p
    ensures Split(p + [sep] + s, sep) == [p] + Split(s, sep)
  {
    if p == [] {
      assert p + [sep] + s == [sep] + s;
    } else {
      SplitCons(p[1..], s, sep);
      assert (p + [sep] + s)[1..] == p[1..] + [sep] + s;
      assert p == [p[0]] + p[1..];
    }
  }

  lemma {:induction false} SplitWhole(p: string, sep: char)
    requires sep !in p
    ensures Split(p, sep) == [p]
  {
    if p != [] {
      SplitWhole(p[1..], sep);
      assert p == [p[0]] + p[1..];
    }
  }

  /** Splitting undoes joining when no part holds the separator. */
  lemma {:induction false} SplitOfJoin(parts: seq<string>, sep: char)
    requires |parts| > 0
    requires forall i | 0 <= i < |parts| :: sep !in parts[i]
    ensures Split(Join(parts, sep), sep) == parts
  {
    if |parts| == 1 {
      SplitWhole(parts[0], sep);
    } else {
      SplitOfJoin(parts[1..], sep);
      SplitCons(parts[0], Join(parts[1..], sep), sep);
    }
  }

  /** Joining undoes splitting. */
  lemma {:induction false} JoinOfSplit(s: string, sep: char)
    ensures Join(Split(s, sep), sep) == s
  {
    if s != [] {
      JoinOfSplit(s[1..], sep);
      var rest := Split(s[1..], sep);
      if s[0] == sep {
        assert ([[]] + rest)[1..] == rest;
        assert s == [s[0]] + s[1..];
      } else {
        var parts := [[s[0]] + rest[0]] + rest[1..];
        assert parts[1..] == rest[1..];
        assert s == [s[0]] + s[1..];
      }
    }
  }

  // ---- White space ----

  /** The one-byte white-space characters of strings.TrimSpace. */
  predicate IsSpace(c: char) {
    9 <= c as int <= 13 || c == ' '
  }

  /** U+0085 and U+00A0 in UTF-8. */
  predicate IsSpace2(a: char, b: char) {
    a as int == 0xC2 && (b as int == 0x85 || b as int == 0xA0)
  }

  /** U+1680, U+2000 to U+200A, U+2028, U+2029, U+202F, U+205F and U+3000 in UTF-8. */
  predicate IsSpace3(a: char, b: char, c: char) {
    var x, y, z := a as int, b as int, c as int;
    || (x == 0xE1 && y == 0x9A && z == 0x80)
    || (x == 0xE2 && y == 0x80 && (0x80 <= z <= 0x8A || z == 0xA8 || z == 0xA9 || z == 0xAF))
    || (x == 0xE2 && y == 0x81 && z == 0x9F)
    || (x == 0xE3 && y == 0x80 && z == 0x80)
  }

  function TrimLeft(s: string): string {
    if |s| >= 1 && IsSpace(s[0]) then TrimLeft(s[1..])
    else if |s| >= 2 && IsSpace2(s[0], s[1]) then TrimLeft(s[2..])
    else if |s| >= 3 && IsSpace3(s[0], s[1], s[2]) then TrimLeft(s[3..])
    else s
  }

  function TrimRight(s: string): string {
    var n := |s|;
    if n >= 1 && IsSpace(s[n - 1]) then TrimRight(s[..n - 1])
    else if n >= 2 && IsSpace2(s[n - 2], s[n - 1]) then TrimRight(s[..n - 2])
    else if n >= 3 && IsSpace3(s[n - 3], s[n - 2], s[n - 1]) then TrimRight(s[..n - 3])
    else s
  }

  /** strings.TrimSpace */
  function TrimSpace(s: string): string {
    TrimRight(TrimLeft(s))
  }

  /** A seven-bit byte that is not white space stops trimming on its side. */
  predicate Solid(c: char) {
    c as int < 128 && !IsSpace(c)
  }

  lemma TrimSolid(s: string)
    requires s == [] || (Solid(s[0]) && Solid(s[|s| - 1]))
    ensures TrimSpace(s) == s
  {
  }

  predicate Ascii(s: string) {
    forall i | 0 <= i < |s| :: s[i] as int < 128
  }

  predicate White(c: char) {
    c == ' ' || c == '\t' || c == '\n' || c == '\r' || c as int == 11 || c as int == 12
  }

  lemma {:induction false} AllWhite(s: string)
    requires Ascii(s)
    ensures TrimLeft(s) == "" <==> forall i | 0 <= i < |s| :: White(s[i])
    ensures Ascii(TrimLeft(s)) && (TrimLeft(s) != "" ==> !White(TrimLeft(s)[0]))
  {
    if s != "" && White(s[0]) {
      AllWhite(s[1..]);
      assert forall i | 0 < i < |s| :: s[i] == s[1..][i - 1];
    }
  }

  lemma {:induction false} RightKeepsFirst(s: string)
    requires Ascii(s) && s != "" && !White(s[0])
    ensures TrimRight(s) != ""
  {
    if White(s[|s| - 1]) {
      RightKeepsFirst(s[..|s| - 1]);
    }
  }

  /** A seven-bit string is trimmed to nothing exactly when it holds nothing but white space. */
  lemma BlankIff(s: string)
    requires Ascii(s)
    ensures TrimSpace(s) == "" <==> forall i | 0 <= i < |s| :: White(s[i])
  {
    AllWhite(s);
    if TrimLeft(s) != "" {
      RightKeepsFirst(TrimLeft(s));
    }
  }

  lemma {:induction false} LeftStripped(a: string, s: string)
    requires (forall i | 0 <= i < |a| :: White(a[i])) && (s == "" || Solid(s[0]))
    ensures TrimLeft(a + s) == s
  {
    if a == "" {
      assert a + s == s;
    } else {
      LeftStripped(a[1..], s);
      assert (a + s)[1..] == a[1..] + s;
    }
  }

  lemma {:induction false} RightStripped(s: string, b: string)
    requires (forall i | 0 <= i < |b| :: White(b[i])) && (s == "" || Solid(s[|s| - 1]))
    ensures TrimRight(s + b) == s
  {
    if b == "" {
      assert s + b == s;
    } else {
      RightStripped(s, b[..|b| - 1]);
      assert (s + b)[..|s + b| - 1] == s + b[..|b| - 1];
    }
  }

  /** White space on both sides is removed, and nothing else. */
  lemma TrimSpaceStrips(a: string, s: string, b: string)
    requires forall i | 0 <= i < |a| :: White(a[i])
    requires forall i | 0 <= i < |b| :: White(b[i])
    requires s != "" && Solid(s[0]) && Solid(s[|s| - 1])
    ensures TrimSpace(a + s + b) == s
  {
    LeftStripped(a, s + b);
    RightStripped(s, b);
    assert a + s + b == a + (s + b);
  }

  // ---- Lower case ----

  /** strings.ToLower on seven-bit bytes. */
  function Lower(s: string): (r: string)
    ensures |r| == |s|
  {
    seq(|s|, i requires 0 <= i < |s| => LowerChar(s[i]))
  }

  function LowerChar(c: char): char {
    if 'A' <= c <= 'Z' then (c as int + 32) as char else c
  }

  /** strings.TrimPrefix */
  function TrimPrefix(s: string, c: char): string {
    if |s| > 0 && s[0] == c then s[1..] else s
  }

  /** strings.TrimSuffix */
  function TrimSuffix(s: string, suffix: string): string {
    if |suffix| <= |s| && s[|s| - |suffix|..] == suffix then s[..|s| - |suffix|] else s
  }
}

/** Decimal numbers as fmt's %d prints them and strconv.Atoi reads them. */
module Decimal {
  import opened Wrappers

  const MAX_INT := 0x7FFF_FFFF_FFFF_FFFF

  predicate IsDigit(c: char) {
    '0' <= c <= '9'
  }

  predicate AllDigits(s: string) {
    forall c <- s :: IsDigit(c)
  }

  function DigitOf(n: nat): (c: char)
    requires n < 10
    ensures IsDigit(c)
  {
    ('0' as int + n) as char
  }

  /** %d of a number that is not negative. */
  function Print(n: nat): (s: string)
    ensures |s| > 0 && AllDigits(s)
  {
    if n < 10 then [DigitOf(n)] else Print(n / 10) + [DigitOf(n % 10)]
  }

  function Value(s: string): nat
    requires AllDigits(s)
  {
    if s == [] then 0
    else
      assert IsDigit(s[|s| - 1]);
      10 * Value(s[..|s| - 1]) + (s[|s| - 1] as int - '0' as int)
  }

  /** strconv.Atoi with a 64-bit int: an optional sign, at least one digit, and nothing else. */
  function Atoi(s: string): Result<int> {
    var signed := |s| > 0 && (s[0] == '+' || s[0] == '-');
    var digits := if signed then s[1..] else s;
    if digits == [] || !AllDigits(digits) then
      Err
    else
      var n: int := if signed && s[0] == '-' then -(Value(digits) as int) else Value(digits);
      if -MAX_INT - 1 <= n <= MAX_INT then Ok(n) else Err
  }

  lemma {:induction false} ValueOfPrint(n: nat)
    ensures Value(Print(n)) == n
  {
    if n >= 10 {
      ValueOfPrint(n / 10);
      assert Print(n)[..|Print(n)| - 1] == Print(n / 10);
    }
  }

  /** Reading back a printed number gives the number. */
  lemma AtoiOfPrint(n: nat)
    requires n <= MAX_INT
    ensures Atoi(Print(n)) == Ok(n)
  {
    ValueOfPrint(n);
    assert IsDigit(Print(n)[0]);
  }

  /** Two numbers print alike only when they are equal. */
  lemma PrintInjective(m: nat, n: nat)
    requires Print(m) == Print(n)
    ensures m == n
  {
    ValueOfPrint(m);
    ValueOfPrint(n);
  }
}
