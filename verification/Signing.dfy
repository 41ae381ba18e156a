/** The texts that URL signatures cover, and what an accepted request resolves to. HMAC is taken to be injective,
    so two signatures are compared by comparing the signed texts. */
module Signing {
  import opened Wrappers
  import opened Text
  import opened ImageOptions
  import Decimal

  // ---- Paths ----

  /** path.Ext: from the last dot of the last path element on, or nothing. */
  function PathExt(p: string): (e: string)
    ensures |e| <= |p| && p[|p| - |e|..] == e
    ensures e != "" ==> e[0] == '.' && '.' !in e[1..]
    ensures '/' !in e
  {
    if p == "" then ""
    else
      var last := p[|p| - 1];
      if last == '/' then ""
      else if last == '.' then "."
      else
        var e := PathExt(p[..|p| - 1]);
        if e == "" then "" else e + [last]
  }

  predicate IsHex(c: char) {
    '0' <= c <= '9' || 'a' <= c <= 'f' || 'A' <= c <= 'F'
  }

  function HexValue(c: char): (n: nat)
    requires IsHex(c)
    ensures n < 16
  {
    if c <= '9' then c as int - '0' as int
    else if c <= 'F' then c as int - 'A' as int + 10
    else c as int - 'a' as int + 10
  }

  /** url.PathUnescape: percent-decoding as in section 2.1 of RFC 3986. */
  function Unescape(s: string): Result<string> {
    if s == "" then Ok("")
    else if s[0] != '%' then
      match Unescape(s[1..])
      case Err => Err
      case Ok(rest) => Ok([s[0]] + rest)
    else if |s| < 3 || !IsHex(s[1]) || !IsHex(s[2]) then Err
    else
      match Unescape(s[3..])
      case Err => Err
      case Ok(rest) => Ok([(16 * HexValue(s[1]) + HexValue(s[2])) as char] + rest)
  }

  function HexDigit(n: nat): char
    requires n < 16
  {
    "0123456789ABCDEF"[n]
  }

  function SmallHexDigit(n: nat): char
    requires n < 16
  {
    "0123456789abcdef"[n]
  }

  lemma HexDigitsMean(n: nat)
    requires n < 16
    ensures IsHex(HexDigit(n)) && HexValue(HexDigit(n)) == n
    ensures IsHex(SmallHexDigit(n)) && HexValue(SmallHexDigit(n)) == n
  {
  }

  /** Every byte percent-encoded, with capital or small digits. */
  function Escaped(s: string, small: bool): string
    requires AllBytes(s)
  {
    if s == "" then ""
    else
      var hi, lo := s[0] as int / 16, s[0] as int % 16;
      ['%', if small then SmallHexDigit(hi) else HexDigit(hi), if small then SmallHexDigit(lo) else HexDigit(lo)] + Escaped(s[1..], small)
  }

  /** The characters are bytes. */
  predicate AllBytes(s: string) {
    forall i | 0 <= i < |s| :: s[i] as int < 256
  }

  /** Decoding undoes percent-encoding. */
  lemma {:induction false} UnescapeRestores(s: string, small: bool)
    requires AllBytes(s)
    ensures Unescape(Escaped(s, small)) == Ok(s)
  {
    hide HexDigit, SmallHexDigit, IsHex, HexValue;
    if s != "" {
      UnescapeRestores(s[1..], small);
      var escaped, rest := Escaped(s, small), Escaped(s[1..], small);
      HexDigitsMean(s[0] as int / 16);
      HexDigitsMean(s[0] as int % 16);
      assert escaped[3..] == rest;
      assert s == [s[0]] + s[1..];
    }
  }

  /** The extension as the signer writes it. */
  function NormalFormat(ext: string): string {
    var name := Lower(TrimPrefix(ext, '.'));
    if name == "jpeg" then "jpg" else name
  }

  /** CanonicalizeImageSourcePath, with the decoded key and the format kept apart. */
  datatype SignedSource = SignedSource(key: string, format: string) {
    function Text(): string {
      key + "." + format
    }
  }

  function CanonicalSource(raw: string): Result<SignedSource> {
    var p := TrimPrefix(raw, '/');
    var ext := PathExt(p);
    if p == "" || ext == "" then Err
    else
      var key := Unescape(TrimSuffix(p, ext));
      var format := NormalFormat(ext);
      if key.Err? || key.value == "" || format == "" then Err
      else Ok(SignedSource(key.value, format))
  }

  /** canonicalizeEncryptedImageSourcePath: the opaque token and the format. */
  function CanonicalToken(raw: string): Result<(string, string)> {
    var p := TrimPrefix(raw, '/');
    var ext := PathExt(p);
    if p == "" || ext == "" then Err
    else
      var token := TrimSuffix(p, ext);
      var format := NormalFormat(ext);
      if token == "" || format == "" then Err else Ok((token, format))
  }

  // ---- Signed texts ----

  const NUL: char := 0 as char

  datatype Signed =
    | Image(options: string, source: string)
    | OriginalObject(key: string)
    | Thumb(key: string)
    | EncryptedImage(options: string, token: string, format: string)
    | EncryptedOriginal(token: string)

  const IMAGE_DOMAIN := "vylux/image-url/v1"
  const ORIGINAL_DOMAIN := "vylux/original-url/v1"

  /** Every part behind a NUL byte. */
  function Framed(parts: seq<string>): string {
    if parts == [] then "" else Framed(parts[..|parts| - 1]) + [NUL] + parts[|parts| - 1]
  }

  /** The bytes written to the MAC. */
  function Bytes(m: Signed): string {
    match m
    case Image(options, source) => options + "/" + source
    case OriginalObject(key) => "" + "/" + key
    case Thumb(key) => "thumb" + "/" + key
    case EncryptedImage(options, token, format) => IMAGE_DOMAIN + Framed([options, token, format])
    case EncryptedOriginal(token) => ORIGINAL_DOMAIN + Framed([token])
  }

  /** signDomain: the bytes it writes, in order. */
  method SignDomain(domain: string, parts: seq<string>) returns (written: string)
    ensures written == domain + Framed(parts)
  {
    written := domain;
    for i := 0 to |parts|
      invariant written == domain + Framed(parts[..i])
    {
      assert parts[..i + 1][..i] == parts[..i];
      written := written + [NUL];
      written := written + parts[i];
    }
    assert parts[..|parts|] == parts;
  }

  /** Canonical option text, as the canonicaliser prints it. */
  ghost predicate IsCanonicalOptions(text: string) {
    exists seen :: InRange(seen) && text == Join(Parts(seen), '_')
  }

  /** What the signing functions put into a signed text. */
  ghost predicate WellFormed(m: Signed) {
    match m
    case Image(options, _) => IsCanonicalOptions(options)
    case EncryptedImage(options, _, format) => IsCanonicalOptions(options) && NUL !in format
    case _ => true
  }

  lemma {:induction false} JoinAvoids(parts: seq<string>, sep: char, c: char)
    requires c != sep && forall i | 0 <= i < |parts| :: c !in parts[i]
    ensures c !in Join(parts, sep)
  {
    if |parts| > 1 {
      JoinAvoids(parts[1..], sep, c);
    }
  }

  /** A printed token: its letter and digits. */
  predicate Token(part: string) {
    part != "" && (part[0] == 'w' || part[0] == 'h' || part[0] == 'q') && Decimal.AllDigits(part[1..])
  }

  lemma PartsAreTokens(seen: Seen)
    ensures forall i | 0 <= i < |Parts(seen)| :: Token(Parts(seen)[i])
  {
    assert forall i | 0 <= i < |Part('w', seen.width)| :: Token(Part('w', seen.width)[i]);
    assert forall i | 0 <= i < |Part('h', seen.height)| :: Token(Part('h', seen.height)[i]);
    assert forall i | 0 <= i < |Part('q', seen.quality)| :: Token(Part('q', seen.quality)[i]);
  }

  lemma TokenAvoids(part: string, c: char)
    requires Token(part) && (c == '/' || c == NUL)
    ensures c !in part
  {
    assert part == [part[0]] + part[1..];
  }

  /** Canonical options start with one of three letters, and hold neither a slash nor a NUL. */
  lemma CanonicalOptionsShape(text: string)
    requires IsCanonicalOptions(text)
    ensures '/' !in text && NUL !in text
    ensures text == "" || text[0] == 'w' || text[0] == 'h' || text[0] == 'q'
  {
    var seen :| InRange(seen) && text == Join(Parts(seen), '_');
    var parts := Parts(seen);
    PartsAreTokens(seen);
    forall i | 0 <= i < |parts|
      ensures '/' !in parts[i] && NUL !in parts[i]
    {
      TokenAvoids(parts[i], '/');
      TokenAvoids(parts[i], NUL);
    }
    JoinAvoids(parts, '_', '/');
    JoinAvoids(parts, '_', NUL);
    if parts != [] {
      JoinEnds(parts, '_');
    }
  }

  lemma FramedSnoc(parts: seq<string>, part: string)
    ensures Framed(parts + [part]) == Framed(parts) + [NUL] + part
  {
    assert (parts + [part])[..|parts|] == parts;
  }

  lemma FramedNone()
    ensures Framed([]) == ""
  {
  }

  lemma Regroup(head: string, a: string, b: string)
    ensures head + a + b == head + (a + b)
  {
  }

  lemma FramedThree(a: string, b: string, c: string)
    ensures Framed([a, b, c]) == [NUL] + (a + [NUL] + (b + [NUL] + c))
  {
    hide Framed;
    FramedNone();
    FramedSnoc([], a);
    assert [] + [a] == [a] && "" + [NUL] == [NUL];
    FramedSnoc([a], b);
    assert [a] + [b] == [a, b];
    FramedSnoc([a, b], c);
    assert [a, b] + [c] == [a, b, c];
    var first, second := [NUL] + a, [NUL] + b;
    assert Framed([a, b]) == first + second by { Regroup(first, [NUL], b); }
    assert Framed([a, b, c]) == first + second + ([NUL] + c) by { Regroup(first + second, [NUL], c); }
    assert first + second + ([NUL] + c) == first + (second + ([NUL] + c)) by { Regroup(first, second, [NUL] + c); }
    assert second + ([NUL] + c) == [NUL] + (b + [NUL] + c) by { Regroup([NUL], b, [NUL] + c); Regroup(b, [NUL], c); }
    assert first + ([NUL] + (b + [NUL] + c)) == [NUL] + (a + ([NUL] + (b + [NUL] + c))) by { Regroup([NUL], a, [NUL] + (b + [NUL] + c)); }
    Regroup(a, [NUL], b + [NUL] + c);
  }

  lemma EncryptedImageText(options: string, token: string, format: string)
    ensures Bytes(EncryptedImage(options, token, format)) == IMAGE_DOMAIN + ([NUL] + (options + [NUL] + (token + [NUL] + format)))
  {
    FramedThree(options, token, format);
  }

  lemma CancelHead(head: string, a: string, b: string)
    requires head + a == head + b
    ensures a == b
  {
    assert a == (head + a)[|head|..] && b == (head + b)[|head|..];
  }

  ghost predicate EncryptedCanonical(m: Signed) {
    m.EncryptedImage? && IsCanonicalOptions(m.options)
  }

  /** What two encrypted messages with one text have in common. */
  lemma EncryptedImagesShare(m: Signed, m': Signed)
    requires EncryptedCanonical(m) && EncryptedCanonical(m')
    ensures Bytes(m) == Bytes(m') <==>
            m.options == m'.options && m.token + [NUL] + m.format == m'.token + [NUL] + m'.format
  {
    hide Bytes, Framed, IsCanonicalOptions;
    EncryptedImageText(m.options, m.token, m.format);
    EncryptedImageText(m'.options, m'.token, m'.format);
    var rest, rest' := m.token + [NUL] + m.format, m'.token + [NUL] + m'.format;
    if Bytes(m) == Bytes(m') {
      CancelHead(IMAGE_DOMAIN, [NUL] + (m.options + [NUL] + rest), [NUL] + (m'.options + [NUL] + rest'));
      CancelHead([NUL], m.options + [NUL] + rest, m'.options + [NUL] + rest');
      CanonicalOptionsShape(m.options);
      CanonicalOptionsShape(m'.options);
      CutFirst(m.options, rest, m'.options, rest', NUL);
    }
  }

  /** The NUL framing determines its three fields, for every token, when the format holds no NUL. */
  lemma EncryptedImageInjective(m: Signed, m': Signed)
    requires m.EncryptedImage? && m'.EncryptedImage? && WellFormed(m) && WellFormed(m')
    requires Bytes(m) == Bytes(m')
    ensures m == m'
  {
    EncryptedImagesShare(m, m');
    CutLast(m.token, m.format, m'.token, m'.format, NUL);
  }

  /** A text with one NUL can be cut at a NUL in one way only. */
  lemma CutAtOnly(a: string, b: string, a': string, b': string)
    requires NUL !in a && NUL !in b && a + [NUL] + b == a' + [NUL] + b'
    ensures a == a' && b == b'
  {
    var whole := a + [NUL] + b;
    assert forall i | 0 <= i < |whole| && whole[i] == NUL :: i == |a|;
    assert whole[|a'|] == NUL;
    assert a == whole[..|a|] && a' == whole[..|a'|];
    assert b == whole[|a| + 1..] && b' == whole[|a'| + 1..];
  }

  /** Another message with the same text, when a NUL sits in the token or in the format. */
  function Shifted(m: Signed): Signed
    requires m.EncryptedImage? && (NUL in m.token || NUL in m.format)
  {
    if NUL in m.token then
      var i := FirstNul(m.token);
      EncryptedImage(m.options, m.token[..i], m.token[i + 1..] + [NUL] + m.format)
    else
      var i := FirstNul(m.format);
      EncryptedImage(m.options, m.token + [NUL] + m.format[..i], m.format[i + 1..])
  }

  function FirstNul(s: string): (i: nat)
    requires NUL in s
    ensures i < |s| && s[i] == NUL
  {
    if s[0] == NUL then 0 else 1 + FirstNul(s[1..])
  }

  lemma ShiftedSharesText(m: Signed)
    requires EncryptedCanonical(m) && (NUL in m.token || NUL in m.format)
    ensures EncryptedCanonical(Shifted(m)) && Shifted(m) != m && Bytes(Shifted(m)) == Bytes(m)
  {
    hide Bytes, IsCanonicalOptions;
    var m' := Shifted(m);
    if NUL in m.token {
      var i := FirstNul(m.token);
      assert m.token == m.token[..i] + [NUL] + m.token[i + 1..];
    } else {
      var i := FirstNul(m.format);
      assert m.format == m.format[..i] + [NUL] + m.format[i + 1..];
    }
    assert m.token + [NUL] + m.format == m'.token + [NUL] + m'.format;
    EncryptedImagesShare(m, m');
  }

  /** An encrypted image message is the only one with its text exactly when neither its token nor its format holds a
      NUL. */
  lemma EncryptedImageUniqueIff(m: Signed)
    requires EncryptedCanonical(m)
    ensures (forall m' | EncryptedCanonical(m') && Bytes(m') == Bytes(m) :: m' == m) <==> NUL !in m.token && NUL !in m.format
  {
    hide Bytes, IsCanonicalOptions;
    if NUL in m.token || NUL in m.format {
      ShiftedSharesText(m);
    } else {
      forall m' | EncryptedCanonical(m') && Bytes(m') == Bytes(m)
        ensures m' == m
      {
        EncryptedImagesShare(m, m');
        CutAtOnly(m.token, m.format, m'.token, m'.format);
      }
    }
  }

  /** How the text of each kind starts. */
  lemma KindOfText(m: Signed)
    requires WellFormed(m)
    ensures m.Thumb? ==> Bytes(m)[0] == 't'
    ensures m.OriginalObject? ==> Bytes(m)[0] == '/'
    ensures m.Image? ==> Bytes(m)[0] in "whq/" && (Bytes(m)[0] == '/' <==> m.options == "")
    ensures m.EncryptedImage? ==> |Bytes(m)| > 6 && Bytes(m)[0] == 'v' && Bytes(m)[6] == 'i'
    ensures m.EncryptedOriginal? ==> |Bytes(m)| > 6 && Bytes(m)[0] == 'v' && Bytes(m)[6] == 'o'
  {
    if m.Image? {
      CanonicalOptionsShape(m.options);
    }
  }

  lemma OriginalInjective(m: Signed, m': Signed)
    requires m.EncryptedOriginal? && m'.EncryptedOriginal? && Bytes(m) == Bytes(m')
    ensures m == m'
  {
    FramedSnoc([], m.token);
    FramedSnoc([], m'.token);
    assert [] + [m.token] == [m.token] && [] + [m'.token] == [m'.token];
    assert m.token == Bytes(m)[|ORIGINAL_DOMAIN| + 1..] && m'.token == Bytes(m')[|ORIGINAL_DOMAIN| + 1..];
  }

  /** The text of the three kinds that put one slash between two parts. */
  function BeforeSlash(m: Signed): string
    requires m.Image? || m.OriginalObject? || m.Thumb?
  {
    match m
    case Image(options, _) => options
    case OriginalObject(_) => ""
    case Thumb(_) => "thumb"
  }

  function AfterSlash(m: Signed): string
    requires m.Image? || m.OriginalObject? || m.Thumb?
  {
    if m.Image? then m.source else m.key
  }

  lemma SlashedInjective(m: Signed, m': Signed)
    requires m.Image? || m.OriginalObject? || m.Thumb?
    requires m'.Image? || m'.OriginalObject? || m'.Thumb?
    requires WellFormed(m) && WellFormed(m') && Bytes(m) == Bytes(m')
    ensures BeforeSlash(m) == BeforeSlash(m') && AfterSlash(m) == AfterSlash(m')
  {
    if m.Image? {
      CanonicalOptionsShape(m.options);
    }
    if m'.Image? {
      CanonicalOptionsShape(m'.options);
    }
    assert Bytes(m) == BeforeSlash(m) + ['/'] + AfterSlash(m);
    assert Bytes(m') == BeforeSlash(m') + ['/'] + AfterSlash(m');
    CutFirst(BeforeSlash(m), AfterSlash(m), BeforeSlash(m'), AfterSlash(m'), '/');
  }

  predicate ShareText(m: Signed, m': Signed) {
    m.Image? && m'.OriginalObject? && m.options == "" && m.source == m'.key
  }

  /** Signed texts are unambiguous within and across the five kinds of URL; only an image without options and an
      original share one form. */
  lemma SignedTextIsUnambiguous(m: Signed, m': Signed)
    requires WellFormed(m) && WellFormed(m')
    ensures Bytes(m) == Bytes(m') <==> m == m' || ShareText(m, m') || ShareText(m', m)
  {
    if Bytes(m) == Bytes(m') {
      KindOfText(m);
      KindOfText(m');
      if m.EncryptedImage? {
        EncryptedImageInjective(m, m');
      } else if m.EncryptedOriginal? {
        OriginalInjective(m, m');
      } else {
        SlashedInjective(m, m');
      }
    }
  }

  // ---- What the handler resolves a request to ----

  /** The object fetched, the options rendered, and the text whose signature was checked. */
  datatype Target = Target(key: string, options: Options, message: Signed)

  predicate StartsWithSlash(s: string) {
    |s| > 0 && s[0] == '/'
  }

  /** A plaintext image request whose signature matches: the handler strips one slash, the signer another. */
  function Resolved(rawOptions: string, wildcard: string): Result<Target> {
    var sourcePath := TrimPrefix(wildcard, '/');
    var ext := PathExt(sourcePath);
    var format := ParseFormat(ext);
    var options := Parsed(rawOptions);
    var canonical := Canonical(rawOptions);
    var signedSource := CanonicalSource(sourcePath);
    var key := Unescape(TrimSuffix(sourcePath, ext));
    if sourcePath == "" || format == Original || options.Err? || canonical.Err? || signedSource.Err? || key.Err? then Err
    else Ok(Target(key.value, options.value.(format := format), Image(canonical.value, signedSource.value.Text())))
  }

  lemma CanonicalIsWellFormed(raw: string)
    requires Canonical(raw).Ok?
    ensures IsCanonicalOptions(Canonical(raw).value)
  {
    CanonicalPrintsValues(raw);
  }

  lemma LowerDot(s: string, c: char)
    requires !('a' <= c <= 'z') && c !in s
    ensures c !in Lower(s)
  {
  }

  lemma NormalFormatShape(p: string)
    requires PathExt(p) != ""
    ensures '.' !in NormalFormat(PathExt(p)) && '/' !in NormalFormat(PathExt(p))
  {
    var name := PathExt(p)[1..];
    LowerDot(name, '.');
    LowerDot(name, '/');
  }

  /** The output format follows from the signed extension. */
  lemma FormatOfNormal(e: string, e': string)
    requires NormalFormat(e) == NormalFormat(e')
    ensures ParseFormat(e) == ParseFormat(e')
  {
  }

  lemma ExtSnoc(p: string, c: char)
    ensures PathExt(p + [c]) ==
            if c == '/' then "" else if c == '.' then "." else if PathExt(p) == "" then "" else PathExt(p) + [c]
  {
    assert (p + [c])[..|p|] == p;
  }

  lemma {:induction false} ExtBehindSlash(s: string)
    ensures PathExt("/" + s) == PathExt(s)
  {
    hide PathExt;
    if s == "" {
      assert "/" + s == "" + "/";
      ExtSnoc("", '/');
      assert PathExt("") == "";
    } else {
      var init, last := s[..|s| - 1], s[|s| - 1];
      assert s == init + [last] && "/" + s == ("/" + init) + [last];
      ExtBehindSlash(init);
      ExtSnoc(init, last);
      ExtSnoc("/" + init, last);
    }
  }

  lemma UnescapeBehindSlash(s: string)
    ensures Unescape("/" + s) == match Unescape(s) case Err => Err case Ok(rest) => Ok("/" + rest)
  {
    assert ("/" + s)[1..] == s;
  }

  /** The fetched key is the signed key, with one slash in front when the request kept one. */
  lemma FetchedKey(rawOptions: string, wildcard: string)
    requires Resolved(rawOptions, wildcard).Ok?
    ensures var sourcePath := TrimPrefix(wildcard, '/');
            var signedKey := CanonicalSource(sourcePath).value.key;
            Resolved(rawOptions, wildcard).value.key == if StartsWithSlash(sourcePath) then "/" + signedKey else signedKey
  {
    KeyOfPath(TrimPrefix(wildcard, '/'));
  }

  function Kept(path: string): string {
    if StartsWithSlash(path) then "/" else ""
  }

  lemma KeptAndRest(path: string)
    ensures path == Kept(path) + TrimPrefix(path, '/')
  {
  }

  lemma StemOfPath(path: string)
    ensures var p, ext := TrimPrefix(path, '/'), PathExt(path);
            PathExt(p) == ext && TrimSuffix(path, ext) == Kept(path) + TrimSuffix(p, ext)
  {
    hide *;
    var p, ext := TrimPrefix(path, '/'), PathExt(path);
    FormatOfPath(path);
    KeptAndRest(path);
    SuffixOff(path);
    SuffixOff(p);
    var stem, stem' := TrimSuffix(path, ext), TrimSuffix(p, ext);
    assert Kept(path) + (stem' + ext) == (Kept(path) + stem') + ext;
    CancelTail(stem, Kept(path) + stem', ext);
  }

  lemma SuffixOff(p: string)
    ensures TrimSuffix(p, PathExt(p)) + PathExt(p) == p
  {
    hide PathExt;
  }

  lemma CancelTail(a: string, b: string, tail: string)
    requires a + tail == b + tail
    ensures a == b
  {
    assert |a| == |b|;
    assert a == (a + tail)[..|a|] && b == (b + tail)[..|b|];
  }

  lemma KeyOfPath(path: string)
    ensures var p, ext := TrimPrefix(path, '/'), PathExt(path);
            && PathExt(p) == ext
            && Unescape(TrimSuffix(path, ext)) ==
               match Unescape(TrimSuffix(p, ext))
               case Err => Err
               case Ok(key) => Ok(Kept(path) + key)
  {
    hide PathExt, Unescape, TrimSuffix;
    StemOfPath(path);
    var stem := TrimSuffix(TrimPrefix(path, '/'), PathExt(path));
    if StartsWithSlash(path) {
      UnescapeBehindSlash(stem);
    } else {
      assert "" + stem == stem;
      assert forall key: string :: "" + key == key;
    }
  }

  /** Requests that share a signature render alike; they fetch the same object, and so share a cache key, exactly when
      both or neither kept a leading slash. */
  lemma SameSignatureSameTarget(rawOptions: string, wildcard: string, rawOptions': string, wildcard': string)
    requires Resolved(rawOptions, wildcard).Ok? && Resolved(rawOptions', wildcard').Ok?
    requires var t, t' := Resolved(rawOptions, wildcard).value, Resolved(rawOptions', wildcard').value;
             Bytes(t.message) == Bytes(t'.message)
    ensures var t, t' := Resolved(rawOptions, wildcard).value, Resolved(rawOptions', wildcard').value;
            var kept, kept' := StartsWithSlash(TrimPrefix(wildcard, '/')), StartsWithSlash(TrimPrefix(wildcard', '/'));
            && t.options == t'.options
            && (t.key == t'.key <==> kept == kept')
            && (Preimage(t.key, t.options) == Preimage(t'.key, t'.options) <==> kept == kept')
  {
    var t, t' := Resolved(rawOptions, wildcard).value, Resolved(rawOptions', wildcard').value;
    var path, path' := TrimPrefix(wildcard, '/'), TrimPrefix(wildcard', '/');
    var source, source' := CanonicalSource(path).value, CanonicalSource(path').value;
    CanonicalIsWellFormed(rawOptions);
    CanonicalIsWellFormed(rawOptions');
    SignedTextIsUnambiguous(t.message, t'.message);
    NormalFormatShape(TrimPrefix(path, '/'));
    NormalFormatShape(TrimPrefix(path', '/'));
    CutLast(source.key, source.format, source'.key, source'.format, '.');
    CanonicalKeepsMeaning(rawOptions);
    CanonicalKeepsMeaning(rawOptions');
    FormatOfPath(path);
    FormatOfPath(path');
    FormatOfNormal(PathExt(TrimPrefix(path, '/')), PathExt(TrimPrefix(path', '/')));
    FetchedKey(rawOptions, wildcard);
    FetchedKey(rawOptions', wildcard');
    if StartsWithSlash(path) != StartsWithSlash(path') {
      assert |t.key| != |t'.key|;
    }
    PreimageInjective(t.key, t.options, t'.key, t'.options);
  }

  lemma FormatOfPath(path: string)
    ensures PathExt(path) == PathExt(TrimPrefix(path, '/'))
  {
    if StartsWithSlash(path) {
      assert path == "/" + path[1..];
      ExtBehindSlash(path[1..]);
    }
  }

  /** The plaintext image text determines the canonical options, the decoded key and the format. */
  lemma PlainMessageIsUnambiguous(options: string, source: SignedSource, options': string, source': SignedSource, raw: string, raw': string)
    requires IsCanonicalOptions(options) && IsCanonicalOptions(options')
    requires CanonicalSource(raw) == Ok(source) && CanonicalSource(raw') == Ok(source')
    requires Bytes(Image(options, source.Text())) == Bytes(Image(options', source'.Text()))
    ensures options == options' && source == source'
  {
    SignedTextIsUnambiguous(Image(options, source.Text()), Image(options', source'.Text()));
    NormalFormatShape(TrimPrefix(raw, '/'));
    NormalFormatShape(TrimPrefix(raw', '/'));
    CutLast(source.key, source.format, source'.key, source'.format, '.');
  }

  /** A supported output format keeps the encrypted text unambiguous. */
  lemma SupportedFormatIsWellFormed(rawOptions: string, raw: string)
    requires Canonical(rawOptions).Ok? && CanonicalToken(raw).Ok?
    requires ParseFormat(PathExt(TrimPrefix(raw, '/'))) != Original
    ensures WellFormed(EncryptedImage(Canonical(rawOptions).value, CanonicalToken(raw).value.0, CanonicalToken(raw).value.1))
  {
    CanonicalIsWellFormed(rawOptions);
    FormatName(PathExt(TrimPrefix(raw, '/')));
  }

  lemma FormatName(ext: string)
    requires ParseFormat(ext) != Original
    ensures NormalFormat(ext) == Ext(ParseFormat(ext)) && NUL !in NormalFormat(ext)
  {
  }

  lemma PathOfPng()
    ensures TrimPrefix("/a.png", '/') == "a.png" && TrimPrefix("//a.png", '/') == "/a.png" && TrimPrefix("a.png", '/') == "a.png"
    ensures TrimSuffix("a.png", ".png") == "a" && TrimSuffix("/a.png", ".png") == "/a"
    ensures PathExt("a.png") == ".png" && PathExt("/a.png") == ".png"
  {
    hide PathExt;
    ExtAfterDot("a", "png", 3);
    ExtAfterDot("/a", "png", 3);
    assert "png"[..3] == "png";
    assert "a" + "." + "png" == "a.png" && "/a" + "." + "png" == "/a.png" && "." + "png" == ".png";
  }

  lemma FormatOfPng()
    ensures NormalFormat(".png") == "png" && ParseFormat(".png") == PNG
  {
  }

  /** The paths a.png and /a.png, requested behind the slash of the route, have one signature and name two objects. */
  lemma KeptSlashSplitsObjects()
    ensures Resolved("", "/a.png").Ok? && Resolved("", "//a.png").Ok?
    ensures var t, t' := Resolved("", "/a.png").value, Resolved("", "//a.png").value;
            Bytes(t.message) == Bytes(t'.message) && t.key == "a" && t'.key == "/a"
  {
    hide PathExt, Unescape, NormalFormat, ParseFormat, Parsed, Canonical, TrimPrefix, TrimSuffix, Bytes;
    PathOfPng();
    FormatOfPng();
    UnescapePlain("a");
    UnescapePlain("/a");
    NoOptions();
    assert CanonicalSource("a.png") == CanonicalSource("/a.png") == Ok(SignedSource("a", "png"));
  }

  lemma ExtGrows(p: string, ext: string, c: char)
    requires PathExt(p) == ext && ext != "" && c != '/' && c != '.'
    ensures PathExt(p + [c]) == ext + [c]
  {
    ExtSnoc(p, c);
  }

  /** The extension of a path is what follows its last dot, the dot included. */
  lemma {:induction false} ExtAfterDot(p: string, e: string, n: nat)
    requires '/' !in e && '.' !in e && n <= |e|
    ensures PathExt(p + "." + e[..n]) == "." + e[..n]
  {
    hide PathExt;
    if n == 0 {
      ExtSnoc(p, '.');
      assert p + "." + e[..0] == p + ['.'] && "." + e[..0] == ".";
    } else {
      ExtAfterDot(p, e, n - 1);
      assert e[n - 1] in e;
      ExtGrows(p + "." + e[..n - 1], "." + e[..n - 1], e[n - 1]);
      Regroup(p + ".", e[..n - 1], [e[n - 1]]);
      Regroup(".", e[..n - 1], [e[n - 1]]);
      assert e[..n] == e[..n - 1] + [e[n - 1]];
    }
  }

  lemma {:induction false} UnescapePlain(s: string)
    requires '%' !in s
    ensures Unescape(s) == Ok(s)
  {
    if s != "" {
      UnescapePlain(s[1..]);
      assert s == [s[0]] + s[1..];
    }
  }

  lemma EscapedStarts(s: string, small: bool)
    requires AllBytes(s) && s != ""
    ensures |Escaped(s, small)| > 0 && Escaped(s, small)[0] == '%'
  {
  }

  /** A path that ends in .png, behind the slash of the route. */
  lemma PngPath(stem: string)
    requires stem != "" && stem[0] != '/'
    ensures var p := stem + ".png";
            TrimPrefix("/" + p, '/') == p && TrimPrefix(p, '/') == p && PathExt(p) == ".png" && TrimSuffix(p, ".png") == stem
  {
    hide PathExt;
    ExtAfterDot(stem, "png", 3);
    assert "png"[..3] == "png" && "." + "png" == ".png";
    Regroup(stem, ".", "png");
    var p := stem + ".png";
    assert ("/" + p)[1..] == p && p[0] == stem[0];
    assert p[|p| - 4..] == ".png" && p[..|p| - 4] == stem;
  }

  /** A path with a percent-encoded key names that key, and so does its signature. */
  lemma EscapedKeyIsFetched(key: string, small: bool)
    requires AllBytes(key) && key != ""
    ensures Resolved("", "/" + (Escaped(key, small) + ".png")).Ok?
    ensures var t := Resolved("", "/" + (Escaped(key, small) + ".png")).value;
            t.key == key && t.options == Options(0, 0, 0, PNG) && Bytes(t.message) == "/" + (key + ".png")
  {
    hide PathExt, Unescape, NormalFormat, ParseFormat, Escaped, TrimPrefix, TrimSuffix, Canonical, Parsed;
    var stem := Escaped(key, small);
    EscapedStarts(key, small);
    UnescapeRestores(key, small);
    PngPath(stem);
    FormatOfPng();
    NoOptions();
    assert CanonicalSource(stem + ".png") == Ok(SignedSource(key, "png"));
    PngMessage(key);
  }

  lemma PngMessage(key: string)
    ensures Bytes(Image("", SignedSource(key, "png").Text())) == "/" + (key + ".png")
  {
    Regroup(key, ".", "png");
    assert "." + "png" == ".png" && "" + "/" == "/";
  }

  /** A request for anything but the five formats is refused. */
  lemma OnlyFormatsResolve(rawOptions: string, wildcard: string)
    requires Resolved(rawOptions, wildcard).Ok?
    ensures var t := Resolved(rawOptions, wildcard).value;
            t.options.format in {WebP, AVIF, JPEG, PNG, GIF} && t.options == Parsed(rawOptions).value.(format := t.options.format)
    ensures var ext := PathExt(TrimPrefix(wildcard, '/'));
            |ext| > 1 && Lower(ext[1..]) in {"webp", "avif", "jpg", "jpeg", "png", "gif"}
  {
    var ext := PathExt(TrimPrefix(wildcard, '/'));
    FormatsAreNamed(ext);
    if |ext| > 0 {
      assert TrimPrefix(ext, '.') == ext[1..];
    }
  }

  lemma NoOptions()
    ensures Parsed("") == Ok(Options(0, 0, 0, Original)) && Canonical("") == Ok("")
  {
  }
}
