/**
 * The cartridge header: the fixed signature line followed by the version
 * line. `split_from` cuts the two lines off the cartridge source; the
 * version number is parsed only on request.
 */
module Header {
  import opened Wrappers
  import opened Bytes
  import opened Text

  /** The signature line every `.p8` cartridge starts with. */
  const CARTRIDGE_MARKER: seq<Byte> := Ascii("pico-8 cartridge // http://www.pico-8.com\n")

  /** What a version line starts with. */
  const VERSION_PREFIX: seq<Byte> := Ascii("version ")

  lemma {:induction false} MarkerIsLine()
    ensures IsLine(CARTRIDGE_MARKER) && EndsInNewline(CARTRIDGE_MARKER)
    ensures |CARTRIDGE_MARKER| == 42
  {
    var m := CARTRIDGE_MARKER;
    assert forall i | 0 <= i < |m| - 1 :: m[..|m| - 1][i] == m[i] != NEWLINE;
  }

  /**
   * `split_from` panics when the first line is anything but the signature
   * line; the empty input has no first line and is let through.
   */
  predicate StartsWithSignature(src: seq<Byte>)
  {
    src == [] || CARTRIDGE_MARKER <= src
  }

  /** The lines of a source that starts with the signature line. */
  lemma {:induction false} SignatureLines(src: seq<Byte>)
    requires CARTRIDGE_MARKER <= src
    ensures src == CARTRIDGE_MARKER + src[|CARTRIDGE_MARKER|..]
    ensures Lines(src) == [CARTRIDGE_MARKER] + Lines(src[|CARTRIDGE_MARKER|..])
  {
    MarkerIsLine();
    assert src == CARTRIDGE_MARKER + src[|CARTRIDGE_MARKER|..];
    LinesOfLine(CARTRIDGE_MARKER, src[|CARTRIDGE_MARKER|..]);
  }

  /**
   * What `split_from` computes: after the signature line, the next line
   * (terminated or not) is the version line; it must be valid UTF-8. The
   * header is the two lines, the remainder is everything after them.
   */
  function HeaderSplit(src: seq<Byte>): (r: Option<(seq<Byte>, seq<Byte>)>)
    requires StartsWithSignature(src)
    ensures r.Some? ==> r.value.0 + r.value.1 == src
    ensures r.Some? ==> CARTRIDGE_MARKER <= r.value.0
  {
    if src == [] then None
    else
      var rest := src[|CARTRIDGE_MARKER|..];
      assert src == CARTRIDGE_MARKER + rest;
      match SplitLn(rest)
      case None =>
        if rest == [] || !ValidUtf8(rest) then None else Some((src, []))
      case Some((version, _)) =>
        if !ValidUtf8(version) then None
        else
          var n := |CARTRIDGE_MARKER| + |version|;
          SplitAfter(src, CARTRIDGE_MARKER, version, rest[|version|..], n);
          Some((src[..n], src[n..]))
  }

  /** Cutting `m + v + a` after `v`. */
  lemma {:induction false} SplitAfter(src: seq<Byte>, m: seq<Byte>, v: seq<Byte>, a: seq<Byte>, n: nat)
    requires src == m + (v + a) && n == |m| + |v|
    ensures src[..n] == m + v && src[n..] == a && src[..n] + src[n..] == src
  {
    assert src == m + v + a;
  }

  /**
   * `split_from` in terms of lines: it fails exactly when there is no
   * second line or that line is not valid UTF-8; otherwise the header is
   * the first two lines and the remainder holds all the other lines.
   */
  lemma {:induction false} HeaderSplitLines(src: seq<Byte>)
    requires StartsWithSignature(src)
    ensures HeaderSplit(src).None? <==> |Lines(src)| < 2 || !ValidUtf8(Lines(src)[1])
    ensures HeaderSplit(src).Some? ==>
              Lines(src)[0] == CARTRIDGE_MARKER
              && HeaderSplit(src).value.0 == Lines(src)[0] + Lines(src)[1]
              && Lines(HeaderSplit(src).value.1) == Lines(src)[2..]
  {
    if src != [] {
      SignatureLines(src);
      var rest := src[|CARTRIDGE_MARKER|..];
      if NEWLINE !in rest {
        HeaderSplitUnterminated(src, rest);
      } else {
        HeaderSplitTerminated(src, rest);
      }
    }
  }

  lemma {:induction false} HeaderSplitUnterminated(src: seq<Byte>, rest: seq<Byte>)
    requires CARTRIDGE_MARKER <= src && rest == src[|CARTRIDGE_MARKER|..] && NEWLINE !in rest
    requires Lines(src) == [CARTRIDGE_MARKER] + Lines(rest)
    ensures HeaderSplit(src).None? <==> |Lines(src)| < 2 || !ValidUtf8(Lines(src)[1])
    ensures HeaderSplit(src).Some? ==>
              HeaderSplit(src).value == (src, [])
              && Lines(src) == [CARTRIDGE_MARKER, rest]
  {
    assert SplitLn(rest).None?;
    assert Lines(rest) == if rest == [] then [] else [rest];
  }

  lemma {:induction false} HeaderSplitTerminated(src: seq<Byte>, rest: seq<Byte>)
    requires CARTRIDGE_MARKER <= src && rest == src[|CARTRIDGE_MARKER|..] && NEWLINE in rest
    requires src == CARTRIDGE_MARKER + rest
    requires Lines(src) == [CARTRIDGE_MARKER] + Lines(rest)
    ensures HeaderSplit(src).None? <==> |Lines(src)| < 2 || !ValidUtf8(Lines(src)[1])
    ensures HeaderSplit(src).Some? ==>
              HeaderSplit(src).value.0 == Lines(src)[0] + Lines(src)[1]
              && Lines(HeaderSplit(src).value.1) == Lines(src)[2..]
  {
    var version, after := SplitLn(rest).value.0, SplitLn(rest).value.1;
    HeaderSplitOfLine(src, rest, version, after);
    LinesUnfold(rest);
    LeadingLines(Lines(src), Lines(rest), CARTRIDGE_MARKER, version, Lines(after));
  }


  lemma {:induction false} HeaderSplitOfLine(src: seq<Byte>, rest: seq<Byte>, version: seq<Byte>, after: seq<Byte>)
    requires CARTRIDGE_MARKER <= src && rest == src[|CARTRIDGE_MARKER|..] && src == CARTRIDGE_MARKER + rest
    requires SplitLn(rest) == Some((version, after))
    ensures HeaderSplit(src) == if ValidUtf8(version) then Some((CARTRIDGE_MARKER + version, after)) else None
  {
    var n := |CARTRIDGE_MARKER| + |version|;
    assert src[..n] == CARTRIDGE_MARKER + version;
    assert src[n..] == after;
  }

  /** `split_from`: steps a `NewlineIter` over the signature and the version line. */
  method SplitFrom(src: seq<Byte>) returns (r: Option<(seq<Byte>, seq<Byte>)>)
    requires StartsWithSignature(src)
    ensures r == HeaderSplit(src)
  {
    HeaderSplitLines(src);
    var iter := new NewlineIter(src);
    var marker := iter.Next();
    if marker.None? {
      return None;
    }
    var version := iter.Next();
    if version.None? {
      return None;
    }
    if !ValidUtf8(version.value) {
      return None;
    }
    var headerLen := |marker.value| + |version.value|;
    r := Some((src[..headerLen], src[headerLen..]));
  }

  /** `copy_to_boxed_slice` / `to_owned`: the header's bytes, copied unchanged. */
  function CopyToBoxedSlice(header: seq<Byte>): (r: seq<Byte>)
    ensures |r| == |header| && forall i | 0 <= i < |r| :: r[i] == header[i]
  {
    header[..]
  }

  /**
   * `get_as_tuple`: the signature and the version part. Too short a header
   * gives `None`; a long enough one not starting with the signature panics.
   */
  function GetAsTuple(header: seq<Byte>): (r: Option<(seq<Byte>, seq<Byte>)>)
    requires |header| < |CARTRIDGE_MARKER| || CARTRIDGE_MARKER <= header
    ensures r.None? <==> |header| < |CARTRIDGE_MARKER|
    ensures r.Some? ==> r.value.0 == CARTRIDGE_MARKER && r.value.0 + r.value.1 == header
  {
    if |header| < |CARTRIDGE_MARKER| then None
    else Some((header[..|CARTRIDGE_MARKER|], header[|CARTRIDGE_MARKER|..]))
  }

  /** `get_version`: the header bytes after the signature line. */
  function GetVersion(header: seq<Byte>): (r: Option<seq<Byte>>)
    requires |header| < |CARTRIDGE_MARKER| || CARTRIDGE_MARKER <= header
    ensures r.None? <==> |header| < |CARTRIDGE_MARKER|
    ensures r.Some? ==> CARTRIDGE_MARKER + r.value == header
  {
    match GetAsTuple(header)
    case None => None
    case Some((_, version)) => Some(version)
  }

  /** The header `split_from` cuts off yields its version line back. */
  lemma {:induction false} GetVersionOfSplit(src: seq<Byte>)
    requires StartsWithSignature(src) && HeaderSplit(src).Some?
    ensures |Lines(src)| >= 2 && GetVersion(HeaderSplit(src).value.0) == Some(Lines(src)[1])
  {
    HeaderSplitLines(src);
    MarkerIsLine();
  }

  /**
   * `Version::parse`: the line must start with `version ` (it panics
   * otherwise) and is taken to be UTF-8 (it is read unchecked); the rest,
   * with trailing white space trimmed, is parsed as a `usize`.
   */
  function VersionParse(version: seq<Byte>): (r: Result<nat, IntErrorKind>)
    requires VERSION_PREFIX <= version && ValidUtf8(version)
    ensures var number := DigitsOf(TrimEnd(version[|VERSION_PREFIX|..]));
            r.Ok? <==> number != [] && AllDigits(number) && DecimalValue(number) <= USIZE_MAX
    ensures r.Ok? ==> r.value == DecimalValue(DigitsOf(TrimEnd(version[|VERSION_PREFIX|..])))
  {
    ParseUnsigned(TrimEnd(version[|VERSION_PREFIX|..]), USIZE_MAX)
  }

  /** A digit string never ends in white space. */
  lemma {:induction false} TrimEndDigits(ds: seq<Byte>)
    requires ds != [] && AllDigits(ds)
    ensures TrimEnd(ds) == ds
    ensures TrimEnd(ds + [NEWLINE]) == ds
  {
    var t := ds + [NEWLINE];
    assert TrailingWhitespaceLen(t) == 1;
    assert t[..|t| - 1] == ds;
  }

  /**
   * `version N` followed by any run of White_Space parses back to N: the
   * trim removes exactly that run.
   */
  lemma {:induction false} VersionParseTrailingWhitespace(ds: seq<Byte>, w: seq<Byte>)
    requires ds != [] && AllDigits(ds) && DecimalValue(ds) <= USIZE_MAX
    requires AllWhitespace(w) && ValidUtf8(VERSION_PREFIX + ds + w)
    ensures VERSION_PREFIX <= VERSION_PREFIX + ds + w
    ensures VersionParse(VERSION_PREFIX + ds + w) == Ok(DecimalValue(ds))
  {
    var line := VERSION_PREFIX + ds + w;
    assert line[..|VERSION_PREFIX|] == VERSION_PREFIX;
    assert line[|VERSION_PREFIX|..] == ds + w;
    assert IsDigit(ds[|ds| - 1]);
    assert TrailingWhitespaceLen(ds) == 0;
    TrimEndOfWhitespace(ds, w);
    assert DigitsOf(ds) == ds;
  }

  /** A `version N\n` line parses back to N. */
  lemma {:induction false} VersionParseLine(ds: seq<Byte>)
    requires ds != [] && AllDigits(ds) && DecimalValue(ds) <= USIZE_MAX
    ensures VERSION_PREFIX <= VERSION_PREFIX + ds + [NEWLINE]
    ensures ValidUtf8(VERSION_PREFIX + ds + [NEWLINE])
    ensures VersionParse(VERSION_PREFIX + ds + [NEWLINE]) == Ok(DecimalValue(ds))
  {
    var line := VERSION_PREFIX + ds + [NEWLINE];
    assert line[..|VERSION_PREFIX|] == VERSION_PREFIX;
    AsciiIsValidUtf8(line);
    assert line[|VERSION_PREFIX|..] == ds + [NEWLINE];
    TrimEndDigits(ds);
  }
}
