/** Reading the progress that FFmpeg writes: lines that end with a carriage return or a line feed, in arbitrary reads. */
module LineScan {
  import opened Wrappers
  import Text
  import Decimal

  predicate IsBreak(c: char) {
    c == '\n' || c == '\r'
  }

  /** Where the first line of a stream ends. */
  function LineEnd(s: string): (n: nat)
    ensures n <= |s|
    ensures forall i | 0 <= i < n :: !IsBreak(s[i])
    ensures n < |s| ==> IsBreak(s[n])
  {
    if s == [] || IsBreak(s[0]) then 0
    else
      var n := LineEnd(s[1..]);
      assert forall i | 1 <= i < n + 1 :: s[i] == s[1..][i - 1];
      n + 1
  }

  function FirstLine(s: string): string {
    s[..LineEnd(s)]
  }

  function AfterLine(s: string): string {
    if LineEnd(s) < |s| then s[LineEnd(s) + 1..] else []
  }

  lemma AfterIsShorter(s: string)
    requires s != []
    ensures |AfterLine(s)| < |s|
  {
  }

  /** The lines of a whole stream; what follows the last break counts only if it is not empty. */
  function Lines(s: string): seq<string>
    decreases |s|
  {
    if s == [] then []
    else
      AfterIsShorter(s);
      [FirstLine(s)] + Lines(AfterLine(s))
  }

  lemma LinesStep(s: string)
    requires s != []
    ensures |AfterLine(s)| < |s| && Lines(s) == [FirstLine(s)] + Lines(AfterLine(s))
  {
    AfterIsShorter(s);
  }

  /** A stream is its first line, the break after it if there is one, and the rest. */
  lemma Parts(s: string)
    ensures s == FirstLine(s) + (if LineEnd(s) < |s| then [s[LineEnd(s)]] else []) + AfterLine(s)
    ensures LineEnd(s) == |s| ==> AfterLine(s) == [] && FirstLine(s) == s
  {
    hide LineEnd;
    if LineEnd(s) < |s| {
      CutAt(s, LineEnd(s));
    } else {
      assert s[..|s|] + [] + [] == s;
    }
  }

  lemma FirstLineHasNoBreak(s: string)
    ensures '\n' !in FirstLine(s) && '\r' !in FirstLine(s)
  {
    hide LineEnd;
    forall i | 0 <= i < |FirstLine(s)|
      ensures !IsBreak(FirstLine(s)[i])
    {
      assert FirstLine(s)[i] == s[i];
    }
  }

  lemma CutAt(s: string, n: nat)
    requires n < |s|
    ensures s == s[..n] + [s[n]] + s[n + 1..]
  {
  }

  lemma LineEndOf(s: string, more: string)
    requires LineEnd(s) < |s|
    ensures LineEnd(s + more) == LineEnd(s)
  {
    var n, m := LineEnd(s), LineEnd(s + more);
    assert forall i | 0 <= i <= n :: (s + more)[i] == s[i];
  }

  // ---- The split function ----

  /** What the split function returns: how far to advance, and a line if there is one. */
  datatype Split = Split(advance: nat, token: Option<string>)

  function SplitOf(data: string, atEOF: bool): Split {
    if LineEnd(data) < |data| then Split(LineEnd(data) + 1, Some(FirstLine(data)))
    else if atEOF && data != [] then Split(|data|, Some(data))
    else Split(0, None)
  }

  method ScanFFmpegLines(data: string, atEOF: bool) returns (advance: nat, token: Option<string>)
    ensures Split(advance, token) == SplitOf(data, atEOF)
  {
    if atEOF && |data| == 0 {
      return 0, None;
    }
    for i := 0 to |data|
      invariant forall j | 0 <= j < i :: !IsBreak(data[j])
    {
      if data[i] == '\n' || data[i] == '\r' {
        assert LineEnd(data) == i;
        return i + 1, Some(data[..i]);
      }
    }
    assert LineEnd(data) == |data|;
    if atEOF {
      return |data|, Some(data);
    }
    return 0, None;
  }

  /** A line that has been found stays the same however much more is read, a call that finds one makes progress, and
      at the end of the stream a call finds none only when nothing is left. */
  lemma SplitIsStable(data: string, more: string, atEOF: bool)
    ensures SplitOf(data, false).token.Some? ==> SplitOf(data + more, atEOF) == SplitOf(data, false)
    ensures SplitOf(data, atEOF).token.Some? <==> SplitOf(data, atEOF).advance > 0
    ensures SplitOf(data, atEOF).advance <= |data|
    ensures SplitOf(data, true).token.None? <==> data == []
  {
    if LineEnd(data) < |data| {
      LineEndOf(data, more);
      assert (data + more)[..LineEnd(data)] == data[..LineEnd(data)];
    }
  }

  // ---- The scanner ----

  function Flatten(chunks: seq<string>): string {
    if chunks == [] then [] else chunks[0] + Flatten(chunks[1..])
  }

  /** Part of the first read is taken. */
  lemma TakePart(buffer: string, chunks: seq<string>, n: nat)
    requires chunks != [] && n <= |chunks[0]|
    ensures var left := if n == |chunks[0]| then chunks[1..] else [chunks[0][n..]] + chunks[1..];
            buffer + Flatten(chunks) == (buffer + chunks[0][..n]) + Flatten(left) && |Flatten(left)| == |Flatten(chunks)| - n
  {
    var chunk, rest := chunks[0], Flatten(chunks[1..]);
    assert chunk == chunk[..n] + chunk[n..];
    if n == |chunk| {
      assert buffer + (chunk + rest) == (buffer + chunk[..n]) + rest;
    } else {
      var left := [chunk[n..]] + chunks[1..];
      assert left[1..] == chunks[1..];
      assert Flatten(left) == chunk[n..] + rest;
      assert buffer + (chunk + rest) == (buffer + chunk[..n]) + (chunk[n..] + rest);
    }
  }

  lemma NothingToRead()
    ensures Flatten([]) == []
  {
  }

  /** bufio.MaxScanTokenSize: a buffer of this size without a break is given up. */
  const MAX_TOKEN := 65536

  /** The first line does not fit the buffer. A buffer that is filled by the last bytes fits, if the reader reports the
      end together with them. */
  predicate TooLong(s: string, early: bool) {
    |FirstLine(s)| >= MAX_TOKEN && !(early && |s| == MAX_TOKEN)
  }

  /** The last read brings something. */
  predicate EndsInBytes(chunks: seq<string>) {
    chunks != [] && chunks[|chunks| - 1] != []
  }

  lemma {:induction false} BytesAreLeft(chunks: seq<string>)
    requires EndsInBytes(chunks)
    ensures Flatten(chunks) != []
  {
    if |chunks| > 1 {
      BytesAreLeft(chunks[1..]);
    }
  }

  /** A bufio.Scanner over a reader that delivers its stream in the given reads and then ends, in an error or not; it may
      report the end early, together with the last read. */
  class Scanner {
    const early: bool
    var buffer: string
    var chunks: seq<string>
    var atEOF: bool
    var tooLong: bool

    constructor (chunks: seq<string>, early: bool)
      requires early && chunks != [] ==> EndsInBytes(chunks)
      ensures Remaining() == Flatten(chunks) && Valid() && !tooLong && this.early == early
    {
      this.early := early;
      buffer, this.chunks, atEOF, tooLong := [], chunks, early && chunks == [], false;
    }

    ghost predicate Valid()
      reads this
    {
      && |buffer| <= MAX_TOKEN
      && (atEOF ==> chunks == [] && (early || |buffer| < MAX_TOKEN))
      && (early ==> atEOF || EndsInBytes(chunks))
    }

    /** What has not been handed out yet. */
    ghost function Remaining(): string
      reads this
    {
      buffer + Flatten(chunks)
    }

    /** One read into the free part of the buffer. */
    method Read()
      requires Valid() && !atEOF && |buffer| < MAX_TOKEN
      modifies this
      ensures Valid() && Remaining() == old(Remaining()) && tooLong == old(tooLong)
      ensures |Flatten(chunks)| < |old(Flatten(chunks))| ||
              (|Flatten(chunks)| == |old(Flatten(chunks))| && (|chunks| < |old(chunks)| || (chunks == old(chunks) && atEOF)))
    {
      hide Flatten;
      if chunks == [] {
        atEOF := true;
        return;
      }
      var space := MAX_TOKEN - |buffer|;
      var n := if |chunks[0]| <= space then |chunks[0]| else space;
      TakePart(buffer, chunks, n);
      buffer := buffer + chunks[0][..n];
      chunks := if n == |chunks[0]| then chunks[1..] else [chunks[0][n..]] + chunks[1..];
      atEOF := early && chunks == [];
    }

    /** Scan: reads on until there is a line, until the stream has ended, or until the buffer is full. */
    method Scan() returns (ok: bool, line: string)
      requires Valid() && !tooLong
      modifies this
      ensures Valid()
      ensures ok <==> old(Remaining()) != [] && !TooLong(old(Remaining()), early)
      ensures ok ==> line == FirstLine(old(Remaining())) && Remaining() == AfterLine(old(Remaining()))
      ensures tooLong <==> old(Remaining()) != [] && TooLong(old(Remaining()), early)
      ensures !ok && !tooLong ==> atEOF
    {
      hide SplitOf, FirstLine, AfterLine, Flatten;
      while true
        invariant Valid() && !tooLong && Remaining() == old(Remaining())
        decreases |Flatten(chunks)|, |chunks|, !atEOF
      {
        if |buffer| > 0 || atEOF {
          var advance, token := ScanFFmpegLines(buffer, atEOF);
          NothingToRead();
          SplitIsStable(buffer, Flatten(chunks), atEOF);
          Whole(buffer, Flatten(chunks), atEOF);
          buffer := buffer[advance..];
          if token.Some? {
            return true, token.value;
          }
        }
        if atEOF {
          NothingToRead();
          buffer := [];
          return false, [];
        }
        if |buffer| == MAX_TOKEN {
          if early {
            BytesAreLeft(chunks);
          }
          tooLong := true;
          return false, [];
        }
        Read();
      }
      assert false;
    }
  }

  /** A line found in the buffer is the first line of all that remains. */
  lemma Whole(buffer: string, rest: string, atEOF: bool)
    requires atEOF ==> rest == []
    ensures var split := SplitOf(buffer, atEOF);
            split.token.Some? ==> split.advance <= |buffer| && split.token.value == FirstLine(buffer + rest) &&
                                  buffer[split.advance..] + rest == AfterLine(buffer + rest) && buffer + rest != []
    ensures var split := SplitOf(buffer, atEOF);
            |buffer| <= MAX_TOKEN && split.token.Some? && |split.token.value| >= MAX_TOKEN ==>
              atEOF && |buffer| == MAX_TOKEN && rest == []
    ensures SplitOf(buffer, atEOF).token.None? ==> |FirstLine(buffer + rest)| >= |buffer|
  {
    if LineEnd(buffer) < |buffer| {
      LineEndOf(buffer, rest);
      assert (buffer + rest)[..LineEnd(buffer)] == buffer[..LineEnd(buffer)];
      assert (buffer + rest)[LineEnd(buffer) + 1..] == buffer[LineEnd(buffer) + 1..] + rest;
    } else {
      NoBreakYet(buffer, rest);
      if atEOF {
        assert buffer + rest == buffer;
      }
    }
  }

  lemma NoBreakYet(buffer: string, rest: string)
    requires LineEnd(buffer) == |buffer|
    ensures LineEnd(buffer + rest) >= |buffer|
  {
    assert forall i | 0 <= i < |buffer| :: (buffer + rest)[i] == buffer[i];
  }

  // ---- Lines that fit ----

  /** The lines up to the first one that does not fit the buffer. */
  function ShortLines(s: string, early: bool): seq<string>
    decreases |s|
  {
    if s == [] || TooLong(s, early) then []
    else
      AfterIsShorter(s);
      [FirstLine(s)] + ShortLines(AfterLine(s), early)
  }

  predicate HasLongLine(s: string, early: bool)
    decreases |s|
  {
    s != [] && (TooLong(s, early) || (AfterIsShorter(s); HasLongLine(AfterLine(s), early)))
  }

  predicate IsLong(line: string) {
    |line| >= 65536
  }

  /** short is the part of lines before a long one, or all of them; only the last line of all may be long itself, if it
      just fits and the end comes early. */
  predicate CutAtLong(short: seq<string>, lines: seq<string>, early: bool) {
    && short <= lines && (|short| < |lines| ==> IsLong(lines[|short|]))
    && forall i | 0 <= i < |short| && IsLong(short[i]) :: early && i == |lines| - 1 && |short[i]| == 65536
  }

  lemma CutAtLongCons(line: string, short: seq<string>, lines: seq<string>, early: bool)
    requires CutAtLong(short, lines, early)
    requires IsLong(line) ==> early && lines == [] && |line| == 65536
    ensures CutAtLong([line] + short, [line] + lines, early)
  {
  }

  /** The scanned lines are the lines of the stream before the first one that does not fit: all of them, unless there is
      one. */
  lemma {:induction false} ShortLinesMean(s: string, early: bool)
    ensures CutAtLong(ShortLines(s, early), Lines(s), early)
    ensures HasLongLine(s, early) <==> |ShortLines(s, early)| < |Lines(s)|
    decreases |s|
  {
    hide Lines, ShortLines, HasLongLine, FirstLine, AfterLine;
    ShortLinesStep(s, early);
    if s == [] {
      NothingLeft();
    } else {
      LinesStep(s);
      Parts(s);
      if !TooLong(s, early) {
        ShortLinesMean(AfterLine(s), early);
        NothingLeft();
        CutAtLongCons(FirstLine(s), ShortLines(AfterLine(s), early), Lines(AfterLine(s)), early);
      }
    }
  }

  // ---- Progress ----

  predicate Digits2(s: string, i: nat)
    requires i + 2 <= |s|
  {
    Decimal.IsDigit(s[i]) && Decimal.IsDigit(s[i + 1])
  }

  function Number2(s: string, i: nat): int
    requires i + 2 <= |s| && Digits2(s, i)
  {
    10 * (s[i] as int - '0' as int) + (s[i + 1] as int - '0' as int)
  }

  /** time=HH:MM:SS.cc stands at i. */
  predicate TimeAt(s: string, i: nat) {
    i + 16 <= |s| && s[i..i + 5] == "time=" && Digits2(s, i + 5) && s[i + 7] == ':' && Digits2(s, i + 8) &&
    s[i + 10] == ':' && Digits2(s, i + 11) && s[i + 13] == '.' && Digits2(s, i + 14)
  }

  /** The first time of a line, in seconds. */
  function TimeFrom(s: string, i: nat): Option<real>
    decreases |s| - i
  {
    if i + 16 > |s| then None
    else if TimeAt(s, i) then
      Some((3600 * Number2(s, i + 5) + 60 * Number2(s, i + 8) + Number2(s, i + 11)) as real +
           Number2(s, i + 14) as real / 100.0)
    else TimeFrom(s, i + 1)
  }

  function Share(elapsed: real, total: real): real
    requires total > 0.0
  {
    if elapsed / total > 1.0 then 1.0 else elapsed / total
  }

  function Reports(lines: seq<string>, total: real): (r: seq<real>)
    requires total > 0.0
  {
    if lines == [] then []
    else
      var time := TimeFrom(lines[|lines| - 1], 0);
      Reports(lines[..|lines| - 1], total) + if time.Some? then [Share(time.value, total)] else []
  }

  /** ParseProgress: the calls of the progress function and the error depend on the stream alone, not on how it is
      read, but for a last line that fills the buffer and ends early. */
  method ParseProgress(chunks: seq<string>, early: bool, readFails: bool, total: real) returns (calls: seq<real>, failed: bool)
    requires early && chunks != [] ==> EndsInBytes(chunks)
    ensures calls == if total <= 0.0 then [] else Reports(ShortLines(Flatten(chunks), early), total)
    ensures failed <==> total > 0.0 && (readFails || HasLongLine(Flatten(chunks), early))
  {
    hide Lines, ShortLines, HasLongLine, Reports, FirstLine, AfterLine, TimeFrom, Flatten, Share;
    calls := [];
    if total <= 0.0 {
      return calls, false;
    }
    ReportsOfNone(total);
    var scanner := new Scanner(chunks, early);
    ghost var lines: seq<string> := [];
    ghost var stream := Flatten(chunks);
    while true
      invariant fresh(scanner) && scanner.Valid() && !scanner.tooLong && scanner.early == early
      invariant calls == Reports(lines, total)
      invariant lines + ShortLines(scanner.Remaining(), early) == ShortLines(stream, early)
      invariant HasLongLine(scanner.Remaining(), early) <==> HasLongLine(stream, early)
      decreases |scanner.Remaining()|
    {
      ghost var before := scanner.Remaining();
      ShortLinesStep(before, early);
      var ok, line := scanner.Scan();
      if !ok {
        assert lines + [] == lines;
        return calls, readFails || scanner.tooLong;
      }
      OneMoreLine(lines, line, ShortLines(scanner.Remaining(), early));
      ReportsStep(lines, line, total);
      lines := lines + [line];
      var time := TimeFrom(line, 0);
      if time.None? {
        continue;
      }
      calls := calls + [Share(time.value, total)];
    }
    assert false;
  }

  lemma ShortLinesStep(s: string, early: bool)
    ensures s == [] || TooLong(s, early) ==> ShortLines(s, early) == [] && (HasLongLine(s, early) <==> s != [])
    ensures s != [] && !TooLong(s, early) ==>
              |AfterLine(s)| < |s| && ShortLines(s, early) == [FirstLine(s)] + ShortLines(AfterLine(s), early) &&
              (HasLongLine(s, early) <==> HasLongLine(AfterLine(s), early))
  {
    if s != [] {
      AfterIsShorter(s);
    }
  }

  lemma OneMoreLine(lines: seq<string>, line: string, rest: seq<string>)
    ensures lines + ([line] + rest) == (lines + [line]) + rest
  {
  }

  lemma ReportsOfNone(total: real)
    requires total > 0.0
    ensures Reports([], total) == []
  {
  }

  lemma ReportsStep(lines: seq<string>, line: string, total: real)
    requires total > 0.0
    ensures Reports(lines + [line], total) ==
            Reports(lines, total) + if TimeFrom(line, 0).Some? then [Share(TimeFrom(line, 0).value, total)] else []
  {
    assert (lines + [line])[..|lines|] == lines;
  }

  lemma TimeIsNotNegative(s: string, i: nat)
    ensures TimeFrom(s, i).Some? ==> TimeFrom(s, i).value >= 0.0
    decreases |s| - i
  {
    if i + 16 <= |s| && !TimeAt(s, i) {
      TimeIsNotNegative(s, i + 1);
    }
  }

  /** A line whose first time is HH:MM:SS.cc. */
  function Timed(before: string, h: nat, m: nat, s: nat, c: nat, after: string): string
    requires h < 100 && m < 100 && s < 100 && c < 100
  {
    before + ("time=" + Two(h) + ":" + Two(m) + ":" + Two(s) + "." + Two(c)) + after
  }

  /** A number below a hundred in two digits. */
  function Two(n: nat): (r: string)
    requires n < 100
    ensures |r| == 2
  {
    [(n / 10 + 48) as char, (n % 10 + 48) as char]
  }

  lemma TimeIsThere(before: string, h: nat, m: nat, s: nat, c: nat, after: string)
    requires h < 100 && m < 100 && s < 100 && c < 100
    ensures var line, i := Timed(before, h, m, s, c, after), |before|;
            TimeAt(line, i) && Number2(line, i + 5) == h && Number2(line, i + 8) == m &&
            Number2(line, i + 11) == s && Number2(line, i + 14) == c
  {
    var line, i := Timed(before, h, m, s, c, after), |before|;
    var time := "time=" + Two(h) + ":" + Two(m) + ":" + Two(s) + "." + Two(c);
    assert forall k | 0 <= k < 16 :: line[i + k] == time[k];
    assert line[i..i + 5] == "time=";
  }

  lemma {:induction false} TimeFromLater(line: string, i: nat, j: nat)
    requires i <= j && TimeAt(line, j) && forall k | i <= k < j :: !TimeAt(line, k)
    ensures TimeFrom(line, i) == TimeFrom(line, j)
    decreases j - i
  {
    if i < j {
      TimeFromLater(line, i + 1, j);
    }
  }

  predicate WordAt(s: string, k: nat)
    requires k + 5 <= |s|
  {
    s[k..k + 5] == "time="
  }

  /** No time starts in a text without the word, even if it is followed by one. */
  lemma NoTimeBefore(before: string, line: string, k: nat)
    requires k < |before| < |line| && line[..|before|] == before && line[|before|] == 't'
    requires k + 5 <= |before| ==> !WordAt(before, k)
    ensures !TimeAt(line, k)
  {
    if k + 5 <= |line| {
      var word := line[k..k + 5];
      if k + 5 <= |before| {
        assert word == line[..|before|][k..k + 5];
      } else {
        assert word[|before| - k] == 't';
      }
    }
  }

  /** The first time of a line is its hours, minutes, seconds and hundredths in seconds, and the report is its share of
      the total, at most one. */
  lemma TimeIsReported(before: string, h: nat, m: nat, s: nat, c: nat, after: string, total: real)
    requires h < 100 && m < 100 && s < 100 && c < 100 && total > 0.0
    requires forall k | 0 <= k <= |before| - 5 :: !WordAt(before, k)
    ensures var line, time := Timed(before, h, m, s, c, after), (3600 * h + 60 * m + s) as real + c as real / 100.0;
            TimeFrom(line, 0) == Some(time) &&
            Reports([line], total) == [if time >= total then 1.0 else time / total]
  {
    hide TimeAt, Number2, WordAt, TimeFrom, Reports, Share;
    var line := Timed(before, h, m, s, c, after);
    TimeIsThere(before, h, m, s, c, after);
    assert line[|before|] == 't';
    forall k | 0 <= k < |before|
      ensures !TimeAt(line, k)
    {
      NoTimeBefore(before, line, k);
    }
    TimeFromLater(line, 0, |before|);
    TimeThere(line, |before|);
    ReportsOfNone(total);
    ReportsStep([], line, total);
    assert [] + [line] == [line];
    ShareMeans((3600 * h + 60 * m + s) as real + c as real / 100.0, total);
  }

  lemma ShareMeans(elapsed: real, total: real)
    requires total > 0.0
    ensures Share(elapsed, total) == if elapsed >= total then 1.0 else elapsed / total
  {
    var share := elapsed / total;
    assert share * total == elapsed;
    if share > 1.0 {
      assert (share - 1.0) * total > 0.0;
    } else {
      assert (1.0 - share) * total >= 0.0;
    }
  }

  lemma TimeThere(line: string, i: nat)
    requires TimeAt(line, i)
    ensures TimeFrom(line, i) ==
            Some((3600 * Number2(line, i + 5) + 60 * Number2(line, i + 8) + Number2(line, i + 11)) as real +
                 Number2(line, i + 14) as real / 100.0)
  {
  }

  /** Every report lies between zero and one. */
  lemma {:induction false} ReportsAreShares(lines: seq<string>, total: real)
    requires total > 0.0
    ensures forall i | 0 <= i < |Reports(lines, total)| :: 0.0 <= Reports(lines, total)[i] <= 1.0
  {
    if lines != [] {
      ReportsAreShares(lines[..|lines| - 1], total);
      TimeIsNotNegative(lines[|lines| - 1], 0);
    }
  }

  // ---- Lines and the stream ----

  /** The breaks of a stream in order. */
  function Breaks(s: string): string
    decreases |s|
  {
    if s == [] then []
    else
      AfterIsShorter(s);
      (if LineEnd(s) < |s| then [s[LineEnd(s)]] else []) + Breaks(AfterLine(s))
  }

  function Weave(lines: seq<string>, breaks: string): string {
    if lines == [] then []
    else lines[0] + (if breaks == [] then [] else [breaks[0]]) + Weave(lines[1..], if breaks == [] then [] else breaks[1..])
  }

  lemma BreaksStep(s: string)
    requires s != []
    ensures Breaks(s) == (if LineEnd(s) < |s| then [s[LineEnd(s)]] else []) + Breaks(AfterLine(s))
  {
    AfterIsShorter(s);
  }

  lemma WeaveStep(line: string, lines: seq<string>, head: string, breaks: string)
    requires |head| <= 1 && (head == [] ==> breaks == [])
    ensures Weave([line] + lines, head + breaks) == line + head + Weave(lines, breaks)
  {
    assert ([line] + lines)[1..] == lines;
    if head != [] {
      assert (head + breaks)[1..] == breaks;
    }
  }

  lemma NothingLeft()
    ensures Lines([]) == [] && Breaks([]) == [] && Weave([], []) == []
  {
  }

  /** Lines and breaks together make up the stream again. */
  lemma {:induction false} WeaveRestores(s: string)
    ensures Weave(Lines(s), Breaks(s)) == s
    ensures |Lines(s)| == |Breaks(s)| || |Lines(s)| == |Breaks(s)| + 1
    decreases |s|
  {
    hide Lines, Breaks, Weave, FirstLine, AfterLine;
    NothingLeft();
    if s != [] {
      LinesStep(s);
      BreaksStep(s);
      Parts(s);
      WeaveRestores(AfterLine(s));
      WeaveStep(FirstLine(s), Lines(AfterLine(s)), if LineEnd(s) < |s| then [s[LineEnd(s)]] else [], Breaks(AfterLine(s)));
    }
  }

  /** Carriage returns written as line feeds. */
  function Plain(s: string): (r: string)
    ensures |r| == |s|
    ensures forall i | 0 <= i < |s| :: r[i] == if s[i] == '\r' then '\n' else s[i]
  {
    seq(|s|, i requires 0 <= i < |s| => if s[i] == '\r' then '\n' else s[i])
  }

  function DropEmptyLast(parts: seq<string>): seq<string> {
    if parts != [] && parts[|parts| - 1] == [] then parts[..|parts| - 1] else parts
  }

  lemma PlainOfConcat(a: string, b: string)
    ensures Plain(a + b) == Plain(a) + Plain(b)
  {
  }

  lemma PlainKeeps(s: string)
    requires '\r' !in s
    ensures Plain(s) == s
  {
  }

  lemma DropEmptyLastCons(part: string, parts: seq<string>)
    requires parts != []
    ensures DropEmptyLast([part] + parts) == [part] + DropEmptyLast(parts)
  {
    assert ([part] + parts)[|parts|] == parts[|parts| - 1];
    assert ([part] + parts)[..|parts|] == [part] + parts[..|parts| - 1];
  }

  /** The scanned lines are those of splitting the whole stream at every break, without an empty last one. */
  lemma {:induction false} LinesAreSplit(s: string)
    ensures Lines(s) == DropEmptyLast(Text.Split(Plain(s), '\n'))
    decreases |s|
  {
    hide Lines, DropEmptyLast, FirstLine, AfterLine, Plain, Text.Split;
    if s == [] {
      NoLinesInNothing();
    } else {
      var line, rest := FirstLine(s), AfterLine(s);
      LinesStep(s);
      Parts(s);
      FirstLineHasNoBreak(s);
      PlainKeeps(line);
      if LineEnd(s) < |s| {
        LinesAreSplit(rest);
        PlainOfConcat(line + [s[LineEnd(s)]], rest);
        PlainOfConcat(line, [s[LineEnd(s)]]);
        PlainBreak(s[LineEnd(s)]);
        Text.SplitCons(line, Plain(rest), '\n');
        DropEmptyLastCons(line, Text.Split(Plain(rest), '\n'));
      } else {
        NoLinesInNothing();
        Text.SplitWhole(line, '\n');
        LastLine(line);
      }
    }
  }

  lemma NoLinesInNothing()
    ensures Lines([]) == [] && DropEmptyLast(Text.Split(Plain([]), '\n')) == []
  {
  }

  lemma PlainBreak(c: char)
    requires IsBreak(c)
    ensures Plain([c]) == ['\n']
  {
  }

  lemma LastLine(line: string)
    requires line != []
    ensures DropEmptyLast([line]) == [line]
  {
  }
}
