/** Image options: the two parsers of the option language, the printer, and the cache-key text. */
module ImageOptions {
  import opened Wrappers
  import opened Text
  import opened Decimal

  datatype Format = Original | WebP | AVIF | JPEG | PNG | GIF

  function Ext(f: Format): string {
    match f
    case WebP => "webp"
    case AVIF => "avif"
    case JPEG => "jpg"
    case PNG => "png"
    case GIF => "gif"
    case Original => ""
  }

  function ParseFormat(ext: string): Format {
    var name := Lower(TrimPrefix(ext, '.'));
    if name == "webp" then WebP
    else if name == "avif" then AVIF
    else if name == "jpg" || name == "jpeg" then JPEG
    else if name == "png" then PNG
    else if name == "gif" then GIF
    else Original
  }

  /** Each format has one extension, in any case and with or without a dot, and JPEG has two. */
  lemma FormatsAreNamed(ext: string)
    ensures var name := Lower(TrimPrefix(ext, '.'));
            (ParseFormat(ext) == WebP <==> name == "webp") && (ParseFormat(ext) == AVIF <==> name == "avif") &&
            (ParseFormat(ext) == JPEG <==> name == "jpg" || name == "jpeg") && (ParseFormat(ext) == PNG <==> name == "png") &&
            (ParseFormat(ext) == GIF <==> name == "gif") &&
            (ParseFormat(ext) == Original <==> name !in {"webp", "avif", "jpg", "jpeg", "png", "gif"})
  {
  }

  /** 0 stands for "auto" in width and height, and for "default" in quality. */
  datatype Options = Options(width: nat, height: nat, quality: nat, format: Format)

  const ZERO := Options(0, 0, 0, Original)

  function DefaultQuality(f: Format): nat {
    match f
    case AVIF => 50
    case PNG => 0
    case GIF => 0
    case _ => 80
  }

  function EffectiveQuality(o: Options): nat {
    if o.quality > 0 then o.quality else DefaultQuality(o.format)
  }

  // ---- The handler's parser ----

  function ParseToken(part: string, opts: Options): Result<Options> {
    if |part| < 2 then
      Err
    else
      var n := Atoi(part[1..]);
      match part[0]
      case 'w' => if n.Err? || n.value < 0 then Err else Ok(opts.(width := n.value))
      case 'h' => if n.Err? || n.value < 0 then Err else Ok(opts.(height := n.value))
      case 'q' => if n.Err? || n.value < 1 || n.value > 100 then Err else Ok(opts.(quality := n.value))
      case _ => Err
  }

  function ParseFrom(parts: seq<string>, opts: Options): Result<Options> {
    if parts == [] then Ok(opts)
    else
      match ParseToken(parts[0], opts)
      case Err => Err
      case Ok(next) => ParseFrom(parts[1..], next)
  }

  function Parsed(raw: string): Result<Options> {
    if raw == "" then Ok(ZERO) else ParseFrom(Split(raw, '_'), ZERO)
  }

  method ParseOptions(raw: string) returns (r: Result<Options>)
    ensures r == Parsed(raw)
  {
    var opts := ZERO;
    if raw == "" {
      return Ok(opts);
    }
    var parts := Split(raw, '_');
    for i := 0 to |parts|
      invariant Parsed(raw) == ParseFrom(parts[i..], opts)
    {
      var part := parts[i];
      if |part| < 2 {
        return Err;
      }
      var prefix, value := part[0], part[1..];
      var n := Atoi(value);
      if prefix == 'w' {
        if n.Err? || n.value < 0 {
          return Err;
        }
        opts := opts.(width := n.value);
      } else if prefix == 'h' {
        if n.Err? || n.value < 0 {
          return Err;
        }
        opts := opts.(height := n.value);
      } else if prefix == 'q' {
        if n.Err? || n.value < 1 || n.value > 100 {
          return Err;
        }
        opts := opts.(quality := n.value);
      } else {
        return Err;
      }
    }
    return Ok(opts);
  }

  // ---- The signer's canonicaliser ----

  /** The values seen so far, each absent until a token gives it. */
  datatype Seen = Seen(width: Option<nat>, height: Option<nat>, quality: Option<nat>)

  const NOTHING := Seen(None, None, None)

  function CanonToken(part: string, seen: Seen): Result<Seen> {
    if |part| < 2 || Atoi(part[1..]).Err? then
      Err
    else
      var n := Atoi(part[1..]).value;
      match part[0]
      case 'w' => if n < 0 then Err else Ok(seen.(width := Some(n)))
      case 'h' => if n < 0 then Err else Ok(seen.(height := Some(n)))
      case 'q' => if n < 1 || n > 100 then Err else Ok(seen.(quality := Some(n)))
      case _ => Err
  }

  function CanonFrom(parts: seq<string>, seen: Seen): Result<Seen> {
    if parts == [] then Ok(seen)
    else
      match CanonToken(parts[0], seen)
      case Err => Err
      case Ok(next) => CanonFrom(parts[1..], next)
  }

  function Part(prefix: char, value: Option<nat>): seq<string> {
    match value
    case None => []
    case Some(n) => [[prefix] + Print(n)]
  }

  function Parts(seen: Seen): seq<string> {
    Part('w', seen.width) + Part('h', seen.height) + Part('q', seen.quality)
  }

  function Canonical(raw: string): Result<string> {
    var text := TrimSpace(raw);
    if text == "" then Ok("")
    else
      match CanonFrom(Split(text, '_'), NOTHING)
      case Err => Err
      case Ok(seen) => Ok(Join(Parts(seen), '_'))
  }

  method CanonicalizeImageOptions(raw: string) returns (r: Result<string>)
    ensures r == Canonical(raw)
  {
    var text := TrimSpace(raw);
    if text == "" {
      return Ok("");
    }
    var width: Option<nat>, height: Option<nat>, quality: Option<nat> := None, None, None;
    var tokens := Split(text, '_');
    for i := 0 to |tokens|
      invariant CanonFrom(tokens, NOTHING) == CanonFrom(tokens[i..], Seen(width, height, quality))
    {
      var part := tokens[i];
      if |part| < 2 {
        return Err;
      }
      var prefix, n := part[0], Atoi(part[1..]);
      if n.Err? {
        return Err;
      }
      if prefix == 'w' {
        if n.value < 0 {
          return Err;
        }
        width := Some(n.value);
      } else if prefix == 'h' {
        if n.value < 0 {
          return Err;
        }
        height := Some(n.value);
      } else if prefix == 'q' {
        if n.value < 1 || n.value > 100 {
          return Err;
        }
        quality := Some(n.value);
      } else {
        return Err;
      }
    }
    var parts: seq<string> := [];
    if width.Some? {
      parts := parts + [['w'] + Print(width.value)];
    }
    if height.Some? {
      parts := parts + [['h'] + Print(height.value)];
    }
    if quality.Some? {
      parts := parts + [['q'] + Print(quality.value)];
    }
    assert parts == Parts(Seen(width, height, quality));
    return Ok(Join(parts, '_'));
  }

  // ---- What both of them mean ----

  /** A token of the option language. */
  predicate ValidToken(part: string) {
    && |part| >= 2
    && Atoi(part[1..]).Ok?
    && var n := Atoi(part[1..]).value;
       match part[0]
       case 'w' => n >= 0
       case 'h' => n >= 0
       case 'q' => 1 <= n <= 100
       case _ => false
  }

  predicate ValidTokens(parts: seq<string>) {
    forall i | 0 <= i < |parts| :: ValidToken(parts[i])
  }

  /** The value of the last token with the given prefix. */
  function Last(parts: seq<string>, prefix: char): (v: Option<nat>)
    requires ValidTokens(parts)
    ensures v.Some? ==> 0 <= v.value <= MAX_INT
    ensures v.Some? && prefix == 'q' ==> 1 <= v.value <= 100
  {
    if parts == [] then None
    else
      var part := parts[|parts| - 1];
      if part[0] == prefix then Some(Atoi(part[1..]).value) else Last(parts[..|parts| - 1], prefix)
  }

  function Lasts(parts: seq<string>): Seen
    requires ValidTokens(parts)
  {
    Seen(Last(parts, 'w'), Last(parts, 'h'), Last(parts, 'q'))
  }

  function OrElse(v: Option<nat>, default: Option<nat>): Option<nat> {
    if v.Some? then v else default
  }

  /** The options that the values stand for: an absent value is 0. */
  function Meaning(seen: Seen): Options {
    Options(
      if seen.width.Some? then seen.width.value else 0,
      if seen.height.Some? then seen.height.value else 0,
      if seen.quality.Some? then seen.quality.value else 0,
      Original)
  }

  lemma {:induction false} LastCons(parts: seq<string>, prefix: char)
    requires parts != [] && ValidTokens(parts)
    ensures Last(parts, prefix) == OrElse(Last(parts[1..], prefix), Last(parts[..1], prefix))
  {
    var n := |parts|;
    if n > 1 && parts[n - 1][0] != prefix {
      LastCons(parts[..n - 1], prefix);
      assert parts[..n - 1][1..] == parts[1..][..n - 2];
      assert parts[..n - 1][..1] == parts[..1];
    }
  }

  lemma {:induction false} CanonFromMeans(parts: seq<string>, seen: Seen)
    ensures CanonFrom(parts, seen).Ok? <==> ValidTokens(parts)
    ensures ValidTokens(parts) ==>
              var last := Lasts(parts);
              CanonFrom(parts, seen).value == Seen(OrElse(last.width, seen.width), OrElse(last.height, seen.height), OrElse(last.quality, seen.quality))
  {
    if parts != [] && ValidToken(parts[0]) {
      CanonFromMeans(parts[1..], CanonToken(parts[0], seen).value);
      if ValidTokens(parts) {
        LastCons(parts, 'w');
        LastCons(parts, 'h');
        LastCons(parts, 'q');
      }
    }
  }

  /** What the handler's parser has read when it started from what `seen` stands for. */
  lemma {:induction false} ParseFromMeans(parts: seq<string>, seen: Seen)
    ensures ParseFrom(parts, Meaning(seen)).Ok? <==> CanonFrom(parts, seen).Ok?
    ensures CanonFrom(parts, seen).Ok? ==> ParseFrom(parts, Meaning(seen)) == Ok(Meaning(CanonFrom(parts, seen).value))
  {
    if parts != [] && ValidToken(parts[0]) {
      ParseFromMeans(parts[1..], CanonToken(parts[0], seen).value);
    }
  }

  lemma {:induction false} JoinEnds(parts: seq<string>, sep: char)
    requires parts != [] && forall i | 0 <= i < |parts| :: |parts[i]| > 0
    ensures var s := Join(parts, sep);
            s != [] && s[0] == parts[0][0] && s[|s| - 1] == parts[|parts| - 1][|parts[|parts| - 1]| - 1]
  {
    if |parts| > 1 {
      var rest := Join(parts[1..], sep);
      JoinEnds(parts[1..], sep);
      assert parts[1..][|parts| - 2] == parts[|parts| - 1];
      assert Join(parts, sep) == parts[0] + [sep] + rest;
    }
  }

  lemma ValidTokenEnds(part: string)
    requires ValidToken(part)
    ensures Solid(part[0]) && Solid(part[|part| - 1])
  {
    var value := part[1..];
    var signed := value[0] == '+' || value[0] == '-';
    var digits := if signed then value[1..] else value;
    assert IsDigit(digits[|digits| - 1]);
  }

  /** Text made of valid tokens has no white space at either end. */
  lemma ValidTextIsTrimmed(text: string)
    requires ValidTokens(Split(text, '_'))
    ensures text != "" && TrimSpace(text) == text
  {
    var parts := Split(text, '_');
    JoinOfSplit(text, '_');
    JoinEnds(parts, '_');
    ValidTokenEnds(parts[0]);
    ValidTokenEnds(parts[|parts| - 1]);
    TrimSolid(text);
  }

  /** The canonicaliser accepts blank text and valid tokens, and prints the last value of each prefix. */
  lemma CanonicalMeans(raw: string)
    ensures var text := TrimSpace(raw);
            && (Canonical(raw).Ok? <==> text == "" || ValidTokens(Split(text, '_')))
            && (Canonical(raw).Ok? && text != "" ==> Canonical(raw).value == Join(Parts(Lasts(Split(text, '_'))), '_'))
  {
    var text := TrimSpace(raw);
    if text != "" {
      CanonFromMeans(Split(text, '_'), NOTHING);
    }
  }

  /** The handler's parser accepts exactly what the canonicaliser accepts, less surrounding white space. */
  lemma ParsersAgree(raw: string)
    ensures Parsed(raw).Ok? <==> Canonical(raw).Ok? && TrimSpace(raw) == raw
    ensures Parsed(raw).Ok? && raw != "" ==>
              ValidTokens(Split(raw, '_')) && Parsed(raw).value == Meaning(Lasts(Split(raw, '_')))
  {
    var parts := Split(raw, '_');
    CanonicalMeans(raw);
    CanonFromMeans(parts, NOTHING);
    ParseFromMeans(parts, NOTHING);
    assert Meaning(NOTHING) == ZERO;
    if raw != "" && ValidTokens(parts) {
      ValidTextIsTrimmed(raw);
    }
  }

  /** A space in front makes the handler refuse what the signer accepts, for every accepted text. */
  lemma SpaceDivides(raw: string)
    requires Parsed(raw).Ok? && raw != ""
    ensures Canonical(" " + raw) == Canonical(raw) && Canonical(raw).Ok? && Parsed(" " + raw).Err?
  {
    ParsersAgree(raw);
    ParsersAgree(" " + raw);
    assert (" " + raw)[1..] == raw;
    assert TrimLeft(" " + raw) == TrimLeft(raw);
  }

  predicate InRange(seen: Seen) {
    && (seen.width.Some? ==> seen.width.value <= 0x7FFF_FFFF_FFFF_FFFF)
    && (seen.height.Some? ==> seen.height.value <= 0x7FFF_FFFF_FFFF_FFFF)
    && (seen.quality.Some? ==> 1 <= seen.quality.value <= 100)
  }

  /** A printed part reads back as its own value. */
  lemma PartReadsBack(prefix: char, value: Option<nat>)
    requires value.Some? ==> value.value <= MAX_INT
    requires prefix == 'w' || prefix == 'h' || (prefix == 'q' && (value.Some? ==> 1 <= value.value <= 100))
    ensures ValidTokens(Part(prefix, value))
    ensures Last(Part(prefix, value), prefix) == value
    ensures forall i | 0 <= i < |Part(prefix, value)| :: '_' !in Part(prefix, value)[i]
  {
    if value.Some? {
      AtoiOfPrint(value.value);
      assert ([prefix] + Print(value.value))[1..] == Print(value.value);
    }
  }

  /** The printer is undone by splitting and taking last values. */
  lemma PartsReadBack(seen: Seen)
    requires InRange(seen)
    ensures ValidTokens(Parts(seen)) && Lasts(Parts(seen)) == seen
    ensures forall i | 0 <= i < |Parts(seen)| :: '_' !in Parts(seen)[i]
  {
    PartReadsBack('w', seen.width);
    PartReadsBack('h', seen.height);
    PartReadsBack('q', seen.quality);
    var w, h, q := Part('w', seen.width), Part('h', seen.height), Part('q', seen.quality);
    LastOfConcat(w + h, q, 'w');
    LastOfConcat(w + h, q, 'h');
    LastOfConcat(w + h, q, 'q');
    LastOfConcat(w, h, 'w');
    LastOfConcat(w, h, 'h');
    LastOfConcat(w, h, 'q');
  }

  lemma {:induction false} LastOfConcat(a: seq<string>, b: seq<string>, prefix: char)
    requires ValidTokens(a) && ValidTokens(b)
    ensures ValidTokens(a + b) && Last(a + b, prefix) == OrElse(Last(b, prefix), Last(a, prefix))
  {
    if b == [] {
      assert a + b == a;
    } else {
      LastOfConcat(a, b[..|b| - 1], prefix);
      assert (a + b)[..|a + b| - 1] == a + b[..|b| - 1];
    }
  }

  lemma PrintedMeans(seen: Seen)
    requires InRange(seen)
    ensures var text := Join(Parts(seen), '_');
            && TrimSpace(text) == text
            && Canonical(text) == Ok(text)
            && Parsed(text) == Ok(Meaning(seen))
  {
    var parts := Parts(seen);
    var text := Join(parts, '_');
    PartsReadBack(seen);
    if parts == [] {
      assert seen == NOTHING;
    } else {
      SplitOfJoin(parts, '_');
      ValidTextIsTrimmed(text);
      CanonicalMeans(text);
      ParsersAgree(text);
    }
  }

  /** The values an accepted option string gives. */
  function Values(raw: string): Seen
    requires Canonical(raw).Ok?
  {
    CanonicalMeans(raw);
    var text := TrimSpace(raw);
    if text == "" then NOTHING else Lasts(Split(text, '_'))
  }

  lemma CanonicalPrintsValues(raw: string)
    requires Canonical(raw).Ok?
    ensures InRange(Values(raw)) && Canonical(raw).value == Join(Parts(Values(raw)), '_')
  {
    CanonicalMeans(raw);
  }

  /** Canonicalising is idempotent and keeps the options the handler reads. */
  lemma CanonicalKeepsMeaning(raw: string)
    requires Canonical(raw).Ok?
    ensures Canonical(Canonical(raw).value) == Canonical(raw)
    ensures Parsed(Canonical(raw).value) == Ok(Meaning(Values(raw)))
    ensures Parsed(raw).Ok? ==> Parsed(Canonical(raw).value) == Parsed(raw)
  {
    CanonicalPrintsValues(raw);
    PrintedMeans(Values(raw));
    ParsersAgree(raw);
    CanonicalMeans(raw);
  }

  /** Two accepted strings have one canonical form exactly when the last value of every prefix is the same in both. */
  lemma SameCanonical(raw: string, raw': string)
    requires Canonical(raw).Ok? && Canonical(raw').Ok?
    ensures Canonical(raw) == Canonical(raw') <==> Values(raw) == Values(raw')
  {
    CanonicalPrintsValues(raw);
    CanonicalPrintsValues(raw');
    if Canonical(raw) == Canonical(raw') {
      PrintedInjective(Values(raw), Values(raw'));
    }
  }

  lemma PrintedInjective(a: Seen, b: Seen)
    requires InRange(a) && InRange(b)
    requires Join(Parts(a), '_') == Join(Parts(b), '_')
    ensures a == b
  {
    PartsReadBack(a);
    PartsReadBack(b);
    if Parts(a) != [] && Parts(b) != [] {
      SplitOfJoin(Parts(a), '_');
      SplitOfJoin(Parts(b), '_');
    } else if Parts(a) != [] {
      JoinEnds(Parts(a), '_');
    } else if Parts(b) != [] {
      JoinEnds(Parts(b), '_');
    }
  }

  // ---- The cache key ----

  function Suffix(o: Options): string {
    "w" + Print(o.width) + "_h" + Print(o.height) + "_q" + Print(EffectiveQuality(o)) + "." + Ext(o.format)
  }

  /** The text hashed into the cache key. */
  function Preimage(source: string, o: Options): string {
    source + "/" + Suffix(o)
  }

  lemma TaggedInjective(tag: string, m: nat, n: nat)
    requires tag + Print(m) == tag + Print(n)
    ensures m == n
  {
    assert Print(m) == (tag + Print(m))[|tag|..];
    assert Print(n) == (tag + Print(n))[|tag|..];
    PrintInjective(m, n);
  }

  lemma SuffixInjective(o: Options, o': Options)
    requires Suffix(o) == Suffix(o')
    ensures o.width == o'.width && o.height == o'.height && EffectiveQuality(o) == EffectiveQuality(o') && o.format == o'.format
  {
    var w, w' := "w" + Print(o.width), "w" + Print(o'.width);
    var h, h' := "h" + Print(o.height), "h" + Print(o'.height);
    var q, q' := "q" + Print(EffectiveQuality(o)), "q" + Print(EffectiveQuality(o'));
    SuffixCuts(o);
    SuffixCuts(o');
    CutFirst(w, HeightOn(o), w', HeightOn(o'), '_');
    CutFirst(h, QualityOn(o), h', QualityOn(o'), '_');
    CutFirst(q, Ext(o.format), q', Ext(o'.format), '.');
    TaggedInjective("w", o.width, o'.width);
    TaggedInjective("h", o.height, o'.height);
    TaggedInjective("q", EffectiveQuality(o), EffectiveQuality(o'));
  }

  /** The suffix from the height on, and from the quality on. */
  function HeightOn(o: Options): string {
    "h" + Print(o.height) + ['_'] + QualityOn(o)
  }

  function QualityOn(o: Options): string {
    "q" + Print(EffectiveQuality(o)) + ['.'] + Ext(o.format)
  }

  lemma SuffixCuts(o: Options)
    ensures Suffix(o) == "w" + Print(o.width) + ['_'] + HeightOn(o)
  {
  }

  /** The hashed text names the source and everything the rendering depends on, whatever the source looks like. */
  lemma PreimageInjective(source: string, o: Options, source': string, o': Options)
    ensures Preimage(source, o) == Preimage(source', o') <==>
            && source == source'
            && o.width == o'.width
            && o.height == o'.height
            && EffectiveQuality(o) == EffectiveQuality(o')
            && o.format == o'.format
  {
    if Preimage(source, o) == Preimage(source', o') {
      assert '/' !in Suffix(o) && '/' !in Suffix(o');
      CutLast(source, Suffix(o), source', Suffix(o'), '/');
      SuffixInjective(o, o');
    }
  }
}
