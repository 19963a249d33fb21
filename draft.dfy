/**
 * The first draft of the cartridge reader: its own header split over a
 * byte search, a delimiter scan over newline-terminated lines only, and a
 * Lua split whose tabs keep their `-->8` and record line numbers that are
 * advanced by each tab's own newlines. Its builder is the one of the
 * second version (`Lib.Build`).
 */
module Draft {
  import opened Wrappers
  import opened Bytes
  import opened Text
  import opened Section
  import CartModel
  import Header

  // ---------------------------------------------------------------------
  // P8CartMetadata
  // ---------------------------------------------------------------------

  const SPACE: Byte := 0x20

  /** The first line holds one newline, the rest of the source all the others. */
  lemma {:induction false} CountSplitLn(src: seq<Byte>)
    requires NEWLINE in src
    ensures Count(SplitLn(src).value.0, NEWLINE) == 1
    ensures Count(src, NEWLINE) == 1 + Count(SplitLn(src).value.1, NEWLINE)
  {
    var line, rest := SplitLn(src).value.0, SplitLn(src).value.1;
    var n := |line| - 1;
    assert line == line[..n] + [NEWLINE];
    CountAppend(line[..n], [NEWLINE], NEWLINE);
    CountAbsent(line[..n], NEWLINE);
    CountAppend(line, rest, NEWLINE);
  }

  /**
   * `P8CartMetadata::split_from`: `find_byte_index` of a newline, plus
   * one, twice; everything through the second newline is the metadata,
   * the rest the remainder. Fewer than two newlines give `None`.
   */
  function SplitFrom(src: seq<Byte>): (r: Option<(seq<Byte>, seq<Byte>)>)
    ensures r.None? <==> Count(src, NEWLINE) < 2
    ensures r.Some? ==> r.value.0 + r.value.1 == src
    ensures r.Some? ==> Count(r.value.0, NEWLINE) == 2 && EndsInNewline(r.value.0)
  {
    match SplitLn(src)
    case None =>
      CountAbsent(src, NEWLINE);
      None
    case Some((signatureLine, rest)) =>
      CountSplitLn(src);
      match SplitLn(rest)
      case None =>
        CountAbsent(rest, NEWLINE);
        None
      case Some((versionLine, remainder)) =>
        CountSplitLn(rest);
        CountAppend(signatureLine, versionLine, NEWLINE);
        Some((signatureLine + versionLine, remainder))
  }

  /**
   * The metadata is exactly the first two lines of the source, and the
   * remainder holds all the others.
   */
  lemma {:induction false} SplitFromLines(src: seq<Byte>)
    requires SplitFrom(src).Some?
    ensures |Lines(src)| >= 2
    ensures SplitFrom(src).value.0 == Lines(src)[0] + Lines(src)[1]
    ensures Lines(SplitFrom(src).value.1) == Lines(src)[2..]
  {
    var first, rest := SplitLn(src).value.0, SplitLn(src).value.1;
    var second, after := SplitLn(rest).value.0, SplitLn(rest).value.1;
    assert SplitFrom(src).value == (first + second, after);
    LinesUnfold(src);
    LinesUnfold(rest);
    LeadingLines(Lines(src), Lines(rest), first, second, Lines(after));
  }

  /**
   * `P8CartMetadata::get_version` as written: the bytes after the first
   * space of the second part, parsed as a whole `u32`, untrimmed. A result
   * is at most `u32::MAX`, and only metadata that does not end in a
   * newline can have one.
   */
  function GetVersion(metadata: seq<Byte>): (r: Option<nat>)
    ensures r.Some? ==> r.value <= U32_MAX
    ensures r.Some? ==> NEWLINE in metadata && !EndsInNewline(metadata)
  {
    match SplitLn(metadata)
    case None => None
    case Some((_, versionLine)) =>
      match FirstIndexOf(versionLine, SPACE)
      case None => None
      case Some(i) =>
        var versionNumber := versionLine[i + 1..];
        if !ValidUtf8(versionNumber) then None
        else
          match ParseUnsigned(versionNumber, U32_MAX)
          case Err(_) => None
          case Ok(v) =>
            var ds := DigitsOf(versionNumber);
            assert IsDigit(ds[|ds| - 1]);
            assert metadata[|metadata| - 1] == versionNumber[|versionNumber| - 1] == ds[|ds| - 1];
            Some(v)
  }

  /**
   * The metadata `split_from` cuts off always ends in the version line's
   * newline, so the draft's `get_version` never yields a version for it.
   */
  lemma {:induction false} GetVersionOfSplitIsNone(src: seq<Byte>)
    requires SplitFrom(src).Some?
    ensures GetVersion(SplitFrom(src).value.0).None?
  {
  }

  /**
   * Where the version line has no newline after it, the untrimmed parse
   * does read the number: the bytes after the first space, as a `u32`.
   */
  lemma {:induction false} GetVersionOfUnterminated(first: seq<Byte>, ds: seq<Byte>)
    requires IsLine(first) && EndsInNewline(first)
    requires ds != [] && AllDigits(ds) && DecimalValue(ds) <= U32_MAX
    ensures GetVersion(first + (Header.VERSION_PREFIX + ds)) == Some(DecimalValue(ds))
  {
    var versionLine := Header.VERSION_PREFIX + ds;
    SplitLnOfLine(first, versionLine);
    VersionPrefixSpace(ds);
    assert versionLine[|Header.VERSION_PREFIX|..] == ds;
    AsciiIsValidUtf8(ds);
    assert DigitsOf(ds) == ds;
  }

  /**
   * `get_version` with the trailing white space trimmed before parsing,
   * as `Version::parse` of the header module does.
   */
  function GetVersionTrimmed(metadata: seq<Byte>): (r: Option<nat>)
    ensures r.Some? ==> r.value <= U32_MAX
  {
    match SplitLn(metadata)
    case None => None
    case Some((_, versionLine)) =>
      match FirstIndexOf(versionLine, SPACE)
      case None => None
      case Some(i) =>
        var versionNumber := versionLine[i + 1..];
        if !ValidUtf8(versionNumber) then None
        else
          match ParseUnsigned(TrimEnd(versionNumber), U32_MAX)
          case Err(_) => None
          case Ok(v) => Some(v)
  }

  /** `version ` holds its only space last. */
  lemma {:induction false} VersionPrefixSpace(tail: seq<Byte>)
    ensures FirstIndexOf(Header.VERSION_PREFIX + tail, SPACE) == Some(|Header.VERSION_PREFIX| - 1)
  {
    var p := Header.VERSION_PREFIX;
    assert p[7] == SPACE;
    assert forall j | 0 <= j < 7 :: p[j] != SPACE;
    FirstIndexOfAppend(p, tail, SPACE);
  }

  /** `version N\n` is a terminated line. */
  lemma {:induction false} VersionLineIsLine(ds: seq<Byte>)
    requires AllDigits(ds)
    ensures IsLine(Header.VERSION_PREFIX + ds + [NEWLINE]) && EndsInNewline(Header.VERSION_PREFIX + ds + [NEWLINE])
  {
    var versionLine := Header.VERSION_PREFIX + ds + [NEWLINE];
    assert versionLine[..|versionLine| - 1] == Header.VERSION_PREFIX + ds;
    assert forall j | 0 <= j < |ds| :: ds[j] != NEWLINE;
    assert forall j | 0 <= j < |Header.VERSION_PREFIX| :: Header.VERSION_PREFIX[j] != NEWLINE;
  }

  /**
   * A source whose first line is any terminated line and whose second is
   * `version N\n`: `split_from` cuts exactly those two lines off, and the
   * trimmed parse reads N back from them.
   */
  lemma {:induction false} GetVersionTrimmedOfSplit(first: seq<Byte>, ds: seq<Byte>, rest: seq<Byte>)
    requires IsLine(first) && EndsInNewline(first)
    requires ds != [] && AllDigits(ds) && DecimalValue(ds) <= U32_MAX
    ensures var metadata := first + (Header.VERSION_PREFIX + ds + [NEWLINE]);
            SplitFrom(metadata + rest) == Some((metadata, rest))
            && GetVersionTrimmed(metadata) == Some(DecimalValue(ds))
  {
    var versionLine := Header.VERSION_PREFIX + ds + [NEWLINE];
    VersionLineIsLine(ds);
    SplitFromTwoLines(first, versionLine, rest);
    GetVersionTrimmedOfLines(first, ds);
  }

  /** Two terminated lines in front of anything are exactly what `split_from` cuts off. */
  lemma {:induction false} SplitFromTwoLines(first: seq<Byte>, second: seq<Byte>, rest: seq<Byte>)
    requires IsLine(first) && EndsInNewline(first) && IsLine(second) && EndsInNewline(second)
    ensures SplitFrom(first + second + rest) == Some((first + second, rest))
  {
    SplitLnOfLine(first, second + rest);
    SplitLnOfLine(second, rest);
    assert first + (second + rest) == first + second + rest;
  }

  /** The trimmed parse reads N from a terminated first line and `version N\n`. */
  lemma {:induction false} GetVersionTrimmedOfLines(first: seq<Byte>, ds: seq<Byte>)
    requires IsLine(first) && EndsInNewline(first)
    requires ds != [] && AllDigits(ds) && DecimalValue(ds) <= U32_MAX
    ensures GetVersionTrimmed(first + (Header.VERSION_PREFIX + ds + [NEWLINE])) == Some(DecimalValue(ds))
  {
    var versionLine := Header.VERSION_PREFIX + ds + [NEWLINE];
    SplitLnOfLine(first, versionLine);
    VersionNumberParses(ds);
  }

  /** The part after the space of `version N\n` parses to N once trimmed. */
  lemma {:induction false} VersionNumberParses(ds: seq<Byte>)
    requires ds != [] && AllDigits(ds) && DecimalValue(ds) <= U32_MAX
    ensures var versionLine := Header.VERSION_PREFIX + ds + [NEWLINE];
            FirstIndexOf(versionLine, SPACE) == Some(|Header.VERSION_PREFIX| - 1)
            && ValidUtf8(versionLine[|Header.VERSION_PREFIX|..])
            && ParseUnsigned(TrimEnd(versionLine[|Header.VERSION_PREFIX|..]), U32_MAX) == Ok(DecimalValue(ds))
  {
    var versionLine := Header.VERSION_PREFIX + ds + [NEWLINE];
    VersionPrefixSpace(ds + [NEWLINE]);
    assert versionLine == Header.VERSION_PREFIX + (ds + [NEWLINE]);
    var number := versionLine[|Header.VERSION_PREFIX|..];
    assert number == ds + [NEWLINE];
    AsciiIsValidUtf8(number);
    Header.TrimEndDigits(ds);
    assert DigitsOf(ds) == ds;
  }

  // ---------------------------------------------------------------------
  // get_section_delimiters
  // ---------------------------------------------------------------------

  /**
   * The lines the draft scan walks: only newline-terminated ones, each
   * without its newline.
   */
  function TerminatedLines(src: seq<Byte>): seq<seq<Byte>>
    decreases |src|
  {
    match FirstIndexOf(src, NEWLINE)
    case None => []
    case Some(i) => [src[..i]] + TerminatedLines(src[i + 1..])
  }

  /**
   * There is one terminated line per newline, and each is the matching
   * `NewlineIter` line with its newline taken off.
   */
  lemma {:induction false} TerminatedLinesOfLines(src: seq<Byte>)
    ensures |TerminatedLines(src)| == Count(src, NEWLINE) <= |Lines(src)|
    ensures forall k | 0 <= k < |TerminatedLines(src)| :: TerminatedLines(src)[k] + [NEWLINE] == Lines(src)[k]
    decreases |src|
  {
    match FirstIndexOf(src, NEWLINE)
    case None =>
      CountAbsent(src, NEWLINE);
    case Some(i) =>
      var rest := src[i + 1..];
      TerminatedLinesOfLines(rest);
      LinesUnfold(src);
      assert SplitLn(src).value == (src[..i + 1], rest);
      CountSplitLn(src);
      TakeThroughNewline(src, i);
      assert TerminatedLines(src) == [src[..i]] + TerminatedLines(rest);
      assert Lines(src) == [src[..i] + [NEWLINE]] + Lines(rest);
      TerminatedStep(src[..i], TerminatedLines(rest), Lines(rest));
  }

  lemma {:induction false} TakeThroughNewline(src: seq<Byte>, i: nat)
    requires i < |src| && src[i] == NEWLINE
    ensures src[..i + 1] == src[..i] + [NEWLINE]
  {
  }

  /** Putting a line and its terminated form in front keeps the two lists matched. */
  lemma {:induction false} TerminatedStep(line: seq<Byte>, tr: seq<seq<Byte>>, lr: seq<seq<Byte>>)
    requires |tr| <= |lr|
    requires forall k | 0 <= k < |tr| :: tr[k] + [NEWLINE] == lr[k]
    ensures forall k | 0 <= k < |tr| + 1 :: ([line] + tr)[k] + [NEWLINE] == ([line + [NEWLINE]] + lr)[k]
  {
    forall k | 0 <= k < |tr| + 1
      ensures ([line] + tr)[k] + [NEWLINE] == ([line + [NEWLINE]] + lr)[k]
    {
      if k > 0 {
        assert ([line] + tr)[k] == tr[k - 1];
        assert ([line + [NEWLINE]] + lr)[k] == lr[k - 1];
      }
    }
  }

  /** The number the draft gives the first line: `offset + 1`. */
  function FirstLineNumber(lineNumberOffset: Option<nat>): nat
  {
    CartModel.UnwrapOrDefault(lineNumberOffset) + 1
  }

  /**
   * What the draft `get_section_delimiters` yields: terminated lines are
   * numbered from `offset + 1`, and the byte offset starts at `byte_offset`
   * and grows by each line's length without its newline.
   */
  function DraftDelimiters(src: seq<Byte>, lineNumberOffset: Option<nat>, byteOffset: Option<nat>): seq<SectionDelimiter>
  {
    CartModel.ScanDelimiters(GetLineType, TerminatedLines(src), FirstLineNumber(lineNumberOffset),
                             CartModel.UnwrapOrDefault(byteOffset))
  }

  lemma {:induction false} DraftDelimitersUnfold(src: seq<Byte>, lineNumberOffset: Option<nat>, byteOffset: Option<nat>)
    ensures DraftDelimiters(src, lineNumberOffset, byteOffset)
            == CartModel.ScanDelimiters(GetLineType, TerminatedLines(src), FirstLineNumber(lineNumberOffset),
                                        CartModel.UnwrapOrDefault(byteOffset))
  {
  }

  /**
   * Each delimiter names a terminated line starting with a marker, at that
   * line's number and at the summed newline-free lengths of the lines
   * before it.
   */
  lemma {:induction false} DraftDelimitersSound(src: seq<Byte>, lineNumberOffset: Option<nat>, byteOffset: Option<nat>)
    ensures forall d | d in DraftDelimiters(src, lineNumberOffset, byteOffset) ::
              FirstLineNumber(lineNumberOffset) <= d.lineNumber < FirstLineNumber(lineNumberOffset) + |TerminatedLines(src)|
              && CartModel.LineDelimiter(GetLineType, TerminatedLines(src), d.lineNumber - FirstLineNumber(lineNumberOffset),
                                         FirstLineNumber(lineNumberOffset), CartModel.UnwrapOrDefault(byteOffset)) == Some(d)
  {
    DraftDelimitersUnfold(src, lineNumberOffset, byteOffset);
    CartModel.ScanDelimitersSound(GetLineType, TerminatedLines(src), FirstLineNumber(lineNumberOffset),
                                  CartModel.UnwrapOrDefault(byteOffset));
  }

  /** Every terminated line starting with a marker has its delimiter. */
  lemma {:induction false} DraftDelimitersComplete(src: seq<Byte>, lineNumberOffset: Option<nat>, byteOffset: Option<nat>)
    ensures forall k | 0 <= k < |TerminatedLines(src)|
                       && CartModel.LineDelimiter(GetLineType, TerminatedLines(src), k, FirstLineNumber(lineNumberOffset),
                                                  CartModel.UnwrapOrDefault(byteOffset)).Some? ::
              CartModel.LineDelimiter(GetLineType, TerminatedLines(src), k, FirstLineNumber(lineNumberOffset),
                                      CartModel.UnwrapOrDefault(byteOffset)).value
              in DraftDelimiters(src, lineNumberOffset, byteOffset)
  {
    DraftDelimitersUnfold(src, lineNumberOffset, byteOffset);
    CartModel.ScanDelimitersComplete(GetLineType, TerminatedLines(src), FirstLineNumber(lineNumberOffset),
                                     CartModel.UnwrapOrDefault(byteOffset));
  }

  /** The scan already yields its delimiters in strictly increasing line order. */
  lemma {:induction false} DraftDelimitersOrdered(src: seq<Byte>, lineNumberOffset: Option<nat>, byteOffset: Option<nat>)
    ensures forall i, j | 0 <= i < j < |DraftDelimiters(src, lineNumberOffset, byteOffset)| ::
              DraftDelimiters(src, lineNumberOffset, byteOffset)[i].lineNumber
              < DraftDelimiters(src, lineNumberOffset, byteOffset)[j].lineNumber
    ensures CartModel.SortedByLine(DraftDelimiters(src, lineNumberOffset, byteOffset))
  {
    DraftDelimitersUnfold(src, lineNumberOffset, byteOffset);
    CartModel.ScanDelimitersOrdered(GetLineType, TerminatedLines(src), FirstLineNumber(lineNumberOffset),
                                    CartModel.UnwrapOrDefault(byteOffset));
  }

  /** The scan loop of the draft, for any classifier. */
  method ScanTerminated(classify: CartModel.Classifier, src: seq<Byte>, base: nat, byteOffset: nat)
    returns (ds: seq<SectionDelimiter>)
    ensures ds == CartModel.ScanDelimiters(classify, TerminatedLines(src), base, byteOffset)
  {
    ghost var lines := TerminatedLines(src);
    var rest := src;
    var index: nat := 0;
    var offset: nat := byteOffset;
    ds := [];
    while true
      invariant ScanState(classify, lines, base, byteOffset, rest, index, offset, ds)
      decreases |rest|
    {
      var newlineIndex := FirstIndexOf(rest, NEWLINE);
      if newlineIndex.None? {
        ScanDone(classify, lines, base, byteOffset, rest, index, offset, ds);
        break;
      }
      var line := rest[..newlineIndex.value];
      ScanAdvance(classify, lines, base, byteOffset, rest, index, offset, ds);
      ds := ds + ScanHead(classify, line, base + index, offset);
      offset := offset + |line|;
      index := index + 1;
      rest := rest[newlineIndex.value + 1..];
    }
  }

  /**
   * The loop invariant of the scan: `rest` holds the terminated lines from
   * `index` on, `offset` is the summed length of those before, and `ds`
   * their delimiters.
   */
  ghost predicate ScanState(classify: CartModel.Classifier, lines: seq<seq<Byte>>, base: nat, byteOffset: nat,
                            rest: seq<Byte>, index: nat, offset: nat, ds: seq<SectionDelimiter>)
  {
    index <= |lines| && TerminatedLines(rest) == lines[index..]
    && offset == byteOffset + |Concat(lines[..index])|
    && ds == CartModel.ScanDelimiters(classify, lines[..index], base, byteOffset)
  }

  lemma {:induction false} ScanDone(classify: CartModel.Classifier, lines: seq<seq<Byte>>, base: nat, byteOffset: nat,
                 rest: seq<Byte>, index: nat, offset: nat, ds: seq<SectionDelimiter>)
    requires ScanState(classify, lines, base, byteOffset, rest, index, offset, ds)
    requires FirstIndexOf(rest, NEWLINE).None?
    ensures ds == CartModel.ScanDelimiters(classify, lines, base, byteOffset)
  {
    assert lines[..index] == lines;
  }

  lemma {:induction false} ScanAdvance(classify: CartModel.Classifier, lines: seq<seq<Byte>>, base: nat, byteOffset: nat,
                    rest: seq<Byte>, index: nat, offset: nat, ds: seq<SectionDelimiter>)
    requires ScanState(classify, lines, base, byteOffset, rest, index, offset, ds)
    requires FirstIndexOf(rest, NEWLINE).Some?
    ensures var i := FirstIndexOf(rest, NEWLINE).value;
            ScanState(classify, lines, base, byteOffset, rest[i + 1..], index + 1, offset + |rest[..i]|,
                      ds + ScanHead(classify, rest[..i], base + index, offset))
  {
    var i := FirstIndexOf(rest, NEWLINE).value;
    TerminatedLinesCons(rest);
    DropCons(lines, index, rest[..i], TerminatedLines(rest[i + 1..]));
    ScanStep(classify, lines, index, base, byteOffset, base + index, offset);
  }

  lemma {:induction false} DropCons<T>(s: seq<T>, k: nat, x: T, tail: seq<T>)
    requires k <= |s| && s[k..] == [x] + tail
    ensures k < |s| && s[k] == x && s[k + 1..] == tail
  {
    assert s[k..][0] == x;
    assert s[k..][1..] == tail;
  }

  /** `ScanExtend`, phrased with the scan's own line number and offset. */
  lemma {:induction false} ScanStep(classify: CartModel.Classifier, lines: seq<seq<Byte>>, k: nat, base: nat, byteOffset: nat,
                 lineNumber: nat, offset: nat)
    requires k < |lines| && lineNumber == base + k && offset == byteOffset + |Concat(lines[..k])|
    ensures CartModel.ScanDelimiters(classify, lines[..k + 1], base, byteOffset)
            == CartModel.ScanDelimiters(classify, lines[..k], base, byteOffset) + ScanHead(classify, lines[k], lineNumber, offset)
    ensures offset + |lines[k]| == byteOffset + |Concat(lines[..k + 1])|
  {
    ScanExtend(classify, lines, k, base, byteOffset);
  }

  /** One more line scanned adds that line's delimiter, if any. */
  lemma {:induction false} ScanExtend(classify: CartModel.Classifier, lines: seq<seq<Byte>>, k: nat, base: nat, byteOffset: nat)
    requires k < |lines|
    ensures CartModel.ScanDelimiters(classify, lines[..k + 1], base, byteOffset)
            == CartModel.ScanDelimiters(classify, lines[..k], base, byteOffset)
               + ScanHead(classify, lines[k], base + k, byteOffset + |Concat(lines[..k])|)
    ensures |Concat(lines[..k + 1])| == |Concat(lines[..k])| + |lines[k]|
  {
    assert lines[..k + 1] == lines[..k] + [lines[k]];
    CartModel.ScanDelimitersAppend(classify, lines[..k], [lines[k]], base, byteOffset);
    ScanCons(classify, lines[k], [], base + k, byteOffset + |Concat(lines[..k])|);
    assert [lines[k]] + [] == [lines[k]];
    ConcatAppend(lines[..k], [lines[k]]);
    assert Concat([lines[k]]) == lines[k];
  }

  /** The delimiter a single line contributes, if `classify` accepts it. */
  function ScanHead(classify: CartModel.Classifier, line: seq<Byte>, lineNumber: nat, offset: nat): seq<SectionDelimiter>
  {
    match classify(line)
    case None => []
    case Some(t) => [SectionDelimiter(t, lineNumber, offset)]
  }

  lemma {:induction false} TerminatedLinesCons(rest: seq<Byte>)
    requires FirstIndexOf(rest, NEWLINE).Some?
    ensures var i := FirstIndexOf(rest, NEWLINE).value;
            TerminatedLines(rest) == [rest[..i]] + TerminatedLines(rest[i + 1..])
  {
  }

  lemma {:induction false} ScanCons(classify: CartModel.Classifier, line: seq<Byte>, lines: seq<seq<Byte>>, lineNumber: nat, offset: nat)
    ensures CartModel.ScanDelimiters(classify, [line] + lines, lineNumber, offset)
            == ScanHead(classify, line, lineNumber, offset)
               + CartModel.ScanDelimiters(classify, lines, lineNumber + 1, offset + |line|)
  {
    assert ([line] + lines)[0] == line && ([line] + lines)[1..] == lines;
  }

  /**
   * The draft `get_section_delimiters`: the scan, then `sort()`, which
   * finds the delimiters already in line order and changes nothing.
   */
  method GetSectionDelimiters(src: seq<Byte>, lineNumberOffset: Option<nat>, byteOffset: Option<nat>)
    returns (ds: seq<SectionDelimiter>)
    ensures ds == DraftDelimiters(src, lineNumberOffset, byteOffset)
    ensures CartModel.SortedByLine(ds)
  {
    var scanned := ScanTerminated(GetLineType, src, FirstLineNumber(lineNumberOffset),
                                  CartModel.UnwrapOrDefault(byteOffset));
    DraftDelimitersOrdered(src, lineNumberOffset, byteOffset);
    CartModel.SortByLineSorted(scanned);
    ds := CartModel.SortByLine(scanned);
  }

  /**
   * The draft's offsets leave out the newlines: in `x\n__gfx__\n` the
   * marker line starts at byte 2, which the latest version reports, but the
   * draft reports byte 1.
   */
  lemma {:induction false} DelimiterOffsetSkipsNewlines()
    ensures var src := [0x78, NEWLINE] + Marker(Gfx) + [NEWLINE];
            DraftDelimiters(src, None, None) == [SectionDelimiter(Gfx, 2, 1)]
            && CartModel.SectionDelimiters(src, None) == [SectionDelimiter(Gfx, 2, 2)]
            && src[2..2 + |Marker(Gfx)|] == Marker(Gfx)
  {
    var x: seq<Byte> := [0x78];
    var marker := Marker(Gfx);
    assert [0x78, NEWLINE] + marker + [NEWLINE] == x + [NEWLINE] + (marker + [NEWLINE]);
    ExampleDraft(x, marker);
    ExampleLatest(x, marker);
  }

  /** A newline-free line, its newline, and whatever follows: the line comes first. */
  lemma {:induction false} TerminatedLinesOfLine(body: seq<Byte>, tail: seq<Byte>)
    requires NEWLINE !in body
    ensures TerminatedLines(body + [NEWLINE] + tail) == [body] + TerminatedLines(tail)
  {
    var src := body + [NEWLINE] + tail;
    FirstNewlineAfter(body, tail);
    assert src[..|body|] == body;
    assert src[|body| + 1..] == tail;
  }

  lemma {:induction false} FirstNewlineAfter(body: seq<Byte>, tail: seq<Byte>)
    requires NEWLINE !in body
    ensures FirstIndexOf(body + [NEWLINE] + tail, NEWLINE) == Some(|body|)
  {
    var line := body + [NEWLINE];
    assert line[|body|] == NEWLINE;
    assert forall j | 0 <= j < |body| :: line[j] == body[j];
    assert FirstIndexOf(line, NEWLINE) == Some(|body|);
    FirstIndexOfAppend(line, tail, NEWLINE);
  }

  /** The draft numbers the marker line 2 and puts it at byte 1, the length of `x`. */
  lemma {:induction false} ExampleDraft(x: seq<Byte>, marker: seq<Byte>)
    requires x == [0x78] && marker == Marker(Gfx)
    ensures DraftDelimiters(x + [NEWLINE] + (marker + [NEWLINE]), None, None) == [SectionDelimiter(Gfx, 2, 1)]
  {
    var src := x + [NEWLINE] + (marker + [NEWLINE]);
    ExampleTerminatedLines(x, marker);
    DraftDelimitersUnfold(src, None, None);
    assert FirstLineNumber(None) == 1 && CartModel.UnwrapOrDefault(None) == 0;
    ExampleScan(x, marker);
  }

  lemma {:induction false} ExampleTerminatedLines(x: seq<Byte>, marker: seq<Byte>)
    requires x == [0x78] && marker == Marker(Gfx)
    ensures TerminatedLines(x + [NEWLINE] + (marker + [NEWLINE])) == [x] + [marker]
  {
    TerminatedLinesOfLine(x, marker + [NEWLINE]);
    assert marker + [NEWLINE] == marker + [NEWLINE] + [];
    TerminatedLinesOfLine(marker, []);
    assert TerminatedLines([]) == [];
    assert [marker] + [] == [marker];
  }

  lemma {:induction false} ExampleScan(x: seq<Byte>, marker: seq<Byte>)
    requires x == [0x78] && marker == Marker(Gfx)
    ensures CartModel.ScanDelimiters(GetLineType, [x] + [marker], 1, 0) == [SectionDelimiter(Gfx, 2, 1)]
  {
    GetLineTypeNone(x);
    GetLineTypeOfMarker(Gfx, []);
    assert marker + [] == marker;
    assert ScanHead(GetLineType, x, 1, 0) == [];
    assert ScanHead(GetLineType, marker, 2, 1) == [SectionDelimiter(Gfx, 2, 1)];
    ScanCons(GetLineType, x, [marker], 1, 0);
    assert [marker] + [] == [marker];
    ScanCons(GetLineType, marker, [], 2, 1);
    assert CartModel.ScanDelimiters(GetLineType, [], 3, 1 + |marker|) == [];
  }

  /** The latest version numbers the marker line 2 and puts it at byte 2. */
  lemma {:induction false} ExampleLatest(x: seq<Byte>, marker: seq<Byte>)
    requires x == [0x78] && marker == Marker(Gfx)
    ensures CartModel.SectionDelimiters(x + [NEWLINE] + (marker + [NEWLINE]), None) == [SectionDelimiter(Gfx, 2, 2)]
  {
    ExampleLines(x + [NEWLINE], marker + [NEWLINE]);
    ExampleLatestScan(x + [NEWLINE], marker + [NEWLINE]);
  }

  lemma {:induction false} ExampleLines(l1: seq<Byte>, l2: seq<Byte>)
    requires l1 == [0x78] + [NEWLINE] && l2 == Marker(Gfx) + [NEWLINE]
    ensures Lines(l1 + l2) == [l1] + [l2]
  {
    assert l1[..|l1| - 1] == [0x78] && l2[..|l2| - 1] == Marker(Gfx);
    LinesOfLine(l1, l2);
    LinesOfLine(l2, []);
    assert l2 + [] == l2;
  }

  lemma {:induction false} ExampleLatestScan(l1: seq<Byte>, l2: seq<Byte>)
    requires l1 == [0x78] + [NEWLINE] && l2 == Marker(Gfx) + [NEWLINE]
    ensures CartModel.ScanDelimiters(GetLineType, [l1] + [l2], 1, 0) == [SectionDelimiter(Gfx, 2, 2)]
  {
    GetLineTypeNone(l1);
    GetLineTypeOfMarker(Gfx, [NEWLINE]);
    assert ScanHead(GetLineType, l1, 1, 0) == [];
    assert ScanHead(GetLineType, l2, 2, 2) == [SectionDelimiter(Gfx, 2, 2)];
    ScanCons(GetLineType, l1, [l2], 1, 0);
    assert [l2] + [] == [l2];
    ScanCons(GetLineType, l2, [], 2, 2);
    assert CartModel.ScanDelimiters(GetLineType, [], 3, 2 + |l2|) == [];
  }

  // ---------------------------------------------------------------------
  // P8CodeData::from_lua_section
  // ---------------------------------------------------------------------

  /** The draft's tab array size. */
  const MAX_TABS: nat := 8

  type DraftCodeTabs = s: seq<Option<CartModel.Tab>> | |s| == MAX_TABS
    witness [None, None, None, None, None, None, None, None]

  const NO_DRAFT_TABS: DraftCodeTabs := [None, None, None, None, None, None, None, None]

  /**
   * The pieces the draft's loop records inside its `while let`: repeatedly
   * the prefix through the first `-->8`, until none is left.
   */
  function SeparatedPieces(data: seq<Byte>): seq<seq<Byte>>
    decreases |data|
  {
    match Bytes.SplitAtSequenceExclusive(data, TAB_SEQUENCE)
    case None => []
    case Some((code, remainder)) => [code] + SeparatedPieces(remainder)
  }

  /** What the loop leaves in `section_data`: whatever follows the last `-->8`. */
  function LastPiece(data: seq<Byte>): seq<Byte>
    decreases |data|
  {
    match Bytes.SplitAtSequenceExclusive(data, TAB_SEQUENCE)
    case None => data
    case Some((_, remainder)) => LastPiece(remainder)
  }

  /** A piece cut at a separator: it ends with `-->8`, and that is its only `-->8`. */
  predicate SeparatorPiece(p: seq<Byte>)
  {
    |p| >= |TAB_SEQUENCE| && p[|p| - |TAB_SEQUENCE|..] == TAB_SEQUENCE
    && forall j | 0 <= j < |p| - |TAB_SEQUENCE| :: !OccursAt(p, TAB_SEQUENCE, j)
  }

  predicate NoSeparator(s: seq<Byte>)
  {
    !Contains(s, TAB_SEQUENCE)
  }

  lemma {:induction false} PiecesCons(data: seq<Byte>)
    requires Bytes.SplitAtSequenceExclusive(data, TAB_SEQUENCE).Some?
    ensures var split := Bytes.SplitAtSequenceExclusive(data, TAB_SEQUENCE).value;
            SeparatedPieces(data) == [split.0] + SeparatedPieces(split.1)
            && LastPiece(data) == LastPiece(split.1)
  {
  }

  lemma {:induction false} PiecesConsSeparator(data: seq<Byte>)
    requires Bytes.SplitAtSequenceExclusive(data, TAB_SEQUENCE).Some?
    ensures !NoSeparator(data) && SeparatorPiece(Bytes.SplitAtSequenceExclusive(data, TAB_SEQUENCE).value.0)
  {
  }

  lemma {:induction false} PiecesNil(data: seq<Byte>)
    requires Bytes.SplitAtSequenceExclusive(data, TAB_SEQUENCE).None?
    ensures SeparatedPieces(data) == [] && LastPiece(data) == data && NoSeparator(data)
  {
  }

  /** Without separated pieces, the last piece is the whole payload. */
  lemma {:induction false} PiecesEmpty(data: seq<Byte>)
    ensures SeparatedPieces(data) == [] ==> LastPiece(data) == data
  {
    match Bytes.SplitAtSequenceExclusive(data, TAB_SEQUENCE)
    case None =>
      PiecesNil(data);
    case Some((code, remainder)) =>
      PiecesCons(data);
  }

  /** The separated pieces and then the last piece concatenate to the payload. */
  lemma {:induction false} PiecesConcat(data: seq<Byte>)
    ensures Concat(SeparatedPieces(data)) + LastPiece(data) == data
    decreases |data|
  {
    match Bytes.SplitAtSequenceExclusive(data, TAB_SEQUENCE)
    case None =>
      PiecesNil(data);
    case Some((code, remainder)) =>
      PiecesCons(data);
      PiecesConcat(remainder);
      ConcatStep(code, SeparatedPieces(remainder), LastPiece(remainder), remainder);
  }

  lemma {:induction false} ConcatStep(code: seq<Byte>, rest: seq<seq<Byte>>, last: seq<Byte>, remainder: seq<Byte>)
    requires Concat(rest) + last == remainder
    ensures Concat([code] + rest) + last == code + remainder
  {
    assert ([code] + rest)[0] == code && ([code] + rest)[1..] == rest;
    assert Concat([code] + rest) == code + Concat(rest);
  }

  /** Every separated piece ends with its only `-->8`. */
  lemma {:induction false} PiecesSeparated(data: seq<Byte>)
    ensures forall k | 0 <= k < |SeparatedPieces(data)| :: SeparatorPiece(SeparatedPieces(data)[k])
    decreases |data|
  {
    match Bytes.SplitAtSequenceExclusive(data, TAB_SEQUENCE)
    case None =>
      PiecesNil(data);
    case Some((code, remainder)) =>
      PiecesCons(data);
      PiecesConsSeparator(data);
      PiecesSeparated(remainder);
      ConsSeparated(code, SeparatedPieces(remainder), SeparatedPieces(data));
  }

  lemma {:induction false} ConsSeparated(code: seq<Byte>, rest: seq<seq<Byte>>, ps: seq<seq<Byte>>)
    requires SeparatorPiece(code) && (forall k | 0 <= k < |rest| :: SeparatorPiece(rest[k])) && ps == [code] + rest
    ensures forall k | 0 <= k < |ps| :: SeparatorPiece(ps[k])
  {
    forall k | 0 <= k < |ps|
      ensures SeparatorPiece(ps[k])
    {
      if k > 0 {
        assert ps[k] == rest[k - 1];
      }
    }
  }

  /** The last piece holds no `-->8`. */
  lemma {:induction false} PiecesLast(data: seq<Byte>)
    ensures NoSeparator(LastPiece(data))
    decreases |data|
  {
    match Bytes.SplitAtSequenceExclusive(data, TAB_SEQUENCE)
    case None =>
      PiecesNil(data);
    case Some((code, remainder)) =>
      PiecesCons(data);
      PiecesLast(remainder);
  }

  /** The loop records nothing exactly when the payload has no `-->8`. */
  lemma {:induction false} PiecesNone(data: seq<Byte>)
    ensures SeparatedPieces(data) == [] <==> NoSeparator(data)
  {
    match Bytes.SplitAtSequenceExclusive(data, TAB_SEQUENCE)
    case None =>
      PiecesNil(data);
    case Some((code, remainder)) =>
      PiecesCons(data);
      PiecesConsSeparator(data);
  }

  /** The newlines in the first `k` pieces: how far the draft's counter has moved after them. */
  function NewlinesThrough(pieces: seq<seq<Byte>>, k: nat): nat
    requires k <= |pieces|
  {
    if k == 0 then 0 else NewlinesThrough(pieces, k - 1) + Count(pieces[k - 1], NEWLINE)
  }

  /** Closed form: the newlines in the concatenation of the first `k` pieces. */
  lemma {:induction false} NewlinesThroughConcat(pieces: seq<seq<Byte>>, k: nat)
    requires k <= |pieces|
    ensures NewlinesThrough(pieces, k) == Count(Concat(pieces[..k]), NEWLINE)
  {
    if k == 0 {
      assert pieces[..0] == [];
    } else {
      NewlinesThroughConcat(pieces, k - 1);
      assert pieces[..k] == pieces[..k - 1] + [pieces[k - 1]];
      ConcatAppend(pieces[..k - 1], [pieces[k - 1]]);
      assert Concat([pieces[k - 1]]) == pieces[k - 1];
      CountAppend(Concat(pieces[..k - 1]), pieces[k - 1], NEWLINE);
    }
  }

  /** Pieces appended later do not change the counter over the earlier ones. */
  lemma {:induction false} NewlinesThroughPrefix(pieces: seq<seq<Byte>>, more: seq<seq<Byte>>, k: nat)
    requires k <= |pieces|
    ensures NewlinesThrough(pieces + more, k) == NewlinesThrough(pieces, k)
  {
    if k > 0 {
      NewlinesThroughPrefix(pieces, more, k - 1);
      assert (pieces + more)[k - 1] == pieces[k - 1];
    }
  }

  /** After every piece and a last piece that together make up `data`, the counter has seen every newline of `data`. */
  lemma {:induction false} NewlinesThroughAll(pieces: seq<seq<Byte>>, last: seq<Byte>, data: seq<Byte>)
    requires Concat(pieces) + last == data
    ensures NewlinesThrough(pieces, |pieces|) + Count(last, NEWLINE) == Count(data, NEWLINE)
  {
    NewlinesThroughConcat(pieces, |pieces|);
    assert pieces[..|pieces|] == pieces;
    CountAppend(Concat(pieces), last, NEWLINE);
  }

  /** The array with the first `k` separated pieces recorded, each at the line reached after it. */
  function DraftFilledTabs(lineNumber: nat, pieces: seq<seq<Byte>>, k: nat): DraftCodeTabs
    requires k <= |pieces| < MAX_TABS
  {
    seq(MAX_TABS, i requires 0 <= i < MAX_TABS =>
      if i < k then Some(CartModel.Tab(lineNumber + NewlinesThrough(pieces, i + 1), Borrowed(pieces[i]))) else None)
  }

  /** Recording one more piece fills the next slot, at the counter `ln` advanced by that piece. */
  lemma {:induction false} DraftFilledTabsAppend(lineNumber: nat, done0: seq<seq<Byte>>, code: seq<Byte>, done: seq<seq<Byte>>,
                                                 k0: nat, ln0: nat, ln: nat)
    requires |done| < MAX_TABS && done == done0 + [code] && k0 == |done0|
    requires ln0 == lineNumber + NewlinesThrough(done0, |done0|) && ln == ln0 + Count(code, NEWLINE)
    ensures ln == lineNumber + NewlinesThrough(done, |done|)
    ensures DraftFilledTabs(lineNumber, done, |done|)
            == DraftFilledTabs(lineNumber, done0, |done0|)[k0 := Some(CartModel.Tab(ln, Borrowed(code)))]
  {
    NewlinesThroughPrefix(done0, [code], |done0|);
    forall i | 1 <= i <= |done0|
      ensures NewlinesThrough(done, i) == NewlinesThrough(done0, i)
    {
      NewlinesThroughPrefix(done0, [code], i);
    }
  }

  /**
   * The draft's tab array for a payload starting at `lineNumber`: without
   * a separator, the whole payload in slot 0 at `lineNumber` itself;
   * otherwise separated piece `i` in slot `i` at the start line plus the
   * newlines through that piece, then the last piece at the start line
   * plus every newline of the payload; `None` in the unused slots.
   */
  function DraftCodeTabsOf(lineNumber: nat, data: seq<Byte>): DraftCodeTabs
    requires |SeparatedPieces(data)| < MAX_TABS
  {
    TabsOfPieces(lineNumber, data, SeparatedPieces(data), LastPiece(data), Count(data, NEWLINE))
  }

  /** The tab array for a payload `whole` with separated pieces `sep`, last piece `last` and `total` newlines. */
  function TabsOfPieces(lineNumber: nat, whole: seq<Byte>, sep: seq<seq<Byte>>, last: seq<Byte>, total: nat): DraftCodeTabs
    requires |sep| < MAX_TABS
  {
    if sep == [] then NO_DRAFT_TABS[0 := Some(CartModel.Tab(lineNumber, Borrowed(whole)))]
    else DraftFilledTabs(lineNumber, sep, |sep|)[|sep| := Some(CartModel.Tab(lineNumber + total, Borrowed(last)))]
  }

  /** The code held by the first `n` slots, all of them used. */
  function TabCodes(tabs: DraftCodeTabs, n: nat): seq<seq<Byte>>
    requires n <= MAX_TABS && forall i | 0 <= i < n :: tabs[i].Some?
  {
    seq(n, i requires 0 <= i < n => tabs[i].value.codeData.bytes)
  }

  /** The number of slots the draft fills for a payload. */
  function UsedTabs(data: seq<Byte>): nat
  {
    |SeparatedPieces(data)| + 1
  }

  /**
   * Without a separator only slot 0 is used, holding the whole payload at
   * the start line; a second slot is used exactly when there is one.
   */
  lemma {:induction false} DraftTabsWithoutSeparator(lineNumber: nat, data: seq<Byte>)
    requires |SeparatedPieces(data)| < MAX_TABS
    ensures DraftCodeTabsOf(lineNumber, data)[1].Some? <==> !NoSeparator(data)
    ensures NoSeparator(data) ==>
              DraftCodeTabsOf(lineNumber, data)[0] == Some(CartModel.Tab(lineNumber, Borrowed(data)))
              && forall i | 1 <= i < MAX_TABS :: DraftCodeTabsOf(lineNumber, data)[i].None?
  {
    PiecesNone(data);
  }

  /**
   * The used slots are a prefix of the array, one per separated piece plus
   * one, and their code, concatenated in slot order, is the payload.
   */
  lemma {:induction false} DraftTabsReassemble(lineNumber: nat, data: seq<Byte>)
    requires |SeparatedPieces(data)| < MAX_TABS
    ensures var tabs, n := DraftCodeTabsOf(lineNumber, data), UsedTabs(data);
            (forall i | 0 <= i < n :: tabs[i].Some?) && (forall i | n <= i < MAX_TABS :: tabs[i].None?)
    ensures var tabs, n := DraftCodeTabsOf(lineNumber, data), UsedTabs(data);
            (forall i | 0 <= i < n :: tabs[i].Some?) ==> Concat(TabCodes(tabs, n)) == data
  {
    var sep, tabs, n := SeparatedPieces(data), DraftCodeTabsOf(lineNumber, data), UsedTabs(data);
    TabCodesSplit(lineNumber, data);
    PiecesConcat(data);
    ConcatAppend(sep, [LastPiece(data)]);
    assert Concat([LastPiece(data)]) == LastPiece(data);
  }

  /** The slot codes are the separated pieces followed by the last piece. */
  lemma {:induction false} TabCodesSplit(lineNumber: nat, data: seq<Byte>)
    requires |SeparatedPieces(data)| < MAX_TABS
    ensures var tabs, n := DraftCodeTabsOf(lineNumber, data), UsedTabs(data);
            (forall i | 0 <= i < n :: tabs[i].Some?) && (forall i | n <= i < MAX_TABS :: tabs[i].None?)
            && TabCodes(tabs, n) == SeparatedPieces(data) + [LastPiece(data)]
  {
    PiecesEmpty(data);
    TabsOfPiecesCodes(lineNumber, data, SeparatedPieces(data), LastPiece(data), Count(data, NEWLINE),
                      DraftCodeTabsOf(lineNumber, data), UsedTabs(data));
  }

  /** The slot codes of a tab array built from pieces: the pieces, then the last one. */
  lemma {:induction false} TabsOfPiecesCodes(lineNumber: nat, whole: seq<Byte>, sep: seq<seq<Byte>>, last: seq<Byte>,
                                             total: nat, tabs: DraftCodeTabs, n: nat)
    requires |sep| < MAX_TABS && n == |sep| + 1 && (sep == [] ==> last == whole)
    requires tabs == TabsOfPieces(lineNumber, whole, sep, last, total)
    ensures (forall i | 0 <= i < n :: tabs[i].Some?) && (forall i | n <= i < MAX_TABS :: tabs[i].None?)
            && TabCodes(tabs, n) == sep + [last]
  {
    if sep == [] {
      assert TabCodes(tabs, 1) == [whole];
    } else {
      FilledTabsCodes(lineNumber, sep, CartModel.Tab(lineNumber + total, Borrowed(last)), tabs, n);
    }
  }

  /** Filling the separated pieces and then one last tab uses a prefix of the slots, in order. */
  lemma {:induction false} FilledTabsCodes(lineNumber: nat, sep: seq<seq<Byte>>, last: CartModel.Tab,
                                           tabs: DraftCodeTabs, n: nat)
    requires |sep| < MAX_TABS && n == |sep| + 1 && tabs == DraftFilledTabs(lineNumber, sep, |sep|)[|sep| := Some(last)]
    ensures (forall i | 0 <= i < n :: tabs[i].Some?) && (forall i | n <= i < MAX_TABS :: tabs[i].None?)
            && TabCodes(tabs, n) == sep + [last.codeData.bytes]
  {
    assert forall i | 0 <= i < n :: TabCodes(tabs, n)[i] == (sep + [last.codeData.bytes])[i];
  }

  /**
   * Every used slot but the last holds code ending at its only `-->8`; the
   * last holds code without one.
   */
  lemma {:induction false} DraftTabsCutAtSeparators(lineNumber: nat, data: seq<Byte>)
    requires |SeparatedPieces(data)| < MAX_TABS
    ensures var tabs, n := DraftCodeTabsOf(lineNumber, data), UsedTabs(data);
            (forall i | 0 <= i < n :: tabs[i].Some?) ==>
              (forall i | 0 <= i < n - 1 :: SeparatorPiece(TabCodes(tabs, n)[i]))
              && NoSeparator(TabCodes(tabs, n)[n - 1])
  {
    var sep := SeparatedPieces(data);
    TabCodesSplit(lineNumber, data);
    PiecesSeparated(data);
    PiecesLast(data);
    var codes := TabCodes(DraftCodeTabsOf(lineNumber, data), UsedTabs(data));
    assert forall i | 0 <= i < |sep| :: codes[i] == sep[i];
    assert codes[|sep|] == LastPiece(data);
  }

  /**
   * Where there is a separator, each used slot is recorded at the start line
   * plus the newlines in its own code and in all the code before it.
   */
  lemma {:induction false} DraftTabsLines(lineNumber: nat, data: seq<Byte>)
    requires |SeparatedPieces(data)| < MAX_TABS
    ensures var tabs, n := DraftCodeTabsOf(lineNumber, data), UsedTabs(data);
            !NoSeparator(data) && (forall i | 0 <= i < n :: tabs[i].Some?) ==>
              forall i | 0 <= i < n ::
                tabs[i].value.lineNumber == lineNumber + Count(Concat(TabCodes(tabs, n)[..i + 1]), NEWLINE)
  {
    var sep := SeparatedPieces(data);
    PiecesNone(data);
    if sep != [] {
      PiecesConcat(data);
      FilledTabsLines(lineNumber, sep, LastPiece(data), data, DraftCodeTabsOf(lineNumber, data), UsedTabs(data));
    }
  }

  /** The line of each filled slot, given that the pieces and the last piece make up the payload. */
  lemma {:induction false} FilledTabsLines(lineNumber: nat, sep: seq<seq<Byte>>, last: seq<Byte>, data: seq<Byte>,
                                           tabs: DraftCodeTabs, n: nat)
    requires |sep| < MAX_TABS && Concat(sep) + last == data && n == |sep| + 1
    requires sep != [] && tabs == TabsOfPieces(lineNumber, data, sep, last, Count(data, NEWLINE))
    ensures (forall i | 0 <= i < n :: tabs[i].Some?)
            && forall i | 0 <= i < n ::
                 tabs[i].value.lineNumber == lineNumber + Count(Concat(TabCodes(tabs, n)[..i + 1]), NEWLINE)
  {
    FilledTabsCodes(lineNumber, sep, CartModel.Tab(lineNumber + Count(data, NEWLINE), Borrowed(last)), tabs, n);
    var codes := TabCodes(tabs, n);
    forall i | 1 <= i <= |sep|
      ensures NewlinesThrough(sep, i) == Count(Concat(codes[..i]), NEWLINE)
    {
      NewlinesThroughConcat(sep, i);
      assert codes[..i] == sep[..i];
    }
    assert codes[..|sep| + 1] == codes;
    ConcatAppend(sep, [last]);
    assert Concat([last]) == last;
  }

  /**
   * `P8CodeData::from_lua_section`: a `while let` loop over the splits at
   * `-->8`; the slot index panics past eight tabs.
   */
  method FromLuaSection(lineNumber: nat, sectionData: seq<Byte>) returns (tabs: DraftCodeTabs)
    requires |SeparatedPieces(sectionData)| < MAX_TABS
    ensures tabs == DraftCodeTabsOf(lineNumber, sectionData)
  {
    var slots: seq<Option<CartModel.Tab>> := NO_DRAFT_TABS;
    if Bytes.SplitAtSequenceExclusive(sectionData, TAB_SEQUENCE).None? {
      TabsWithoutSeparator(lineNumber, sectionData);
      slots := slots[0 := Some(CartModel.Tab(lineNumber, Borrowed(sectionData)))];
      return slots;
    }
    ghost var done: seq<seq<Byte>> := [];
    LoopStart(lineNumber, sectionData);
    var data := sectionData;
    var ln: nat := lineNumber;
    var tabIdx: nat := 0;
    while true
      invariant LoopState(lineNumber, sectionData, done, data, tabIdx, ln, slots)
      decreases |data|
    {
      var split := Bytes.SplitAtSequenceExclusive(data, TAB_SEQUENCE);
      if split.None? {
        break;
      }
      var code, remainder := split.value.0, split.value.1;
      LoopRoom(lineNumber, sectionData, done, data, tabIdx, ln, slots);
      ghost var done0, data0, tabIdx0, ln0, slots0 := done, data, tabIdx, ln, slots;
      ln := ln + Count(code, NEWLINE);
      slots := slots[tabIdx := Some(CartModel.Tab(ln, Borrowed(code)))];
      tabIdx := tabIdx + 1;
      data := remainder;
      done := done + [code];
      LoopAdvance(lineNumber, sectionData, done0, data0, tabIdx0, ln0, slots0, code, done, data, tabIdx, ln, slots);
    }
    LoopRoom(lineNumber, sectionData, done, data, tabIdx, ln, slots);
    ghost var ln0, slots0 := ln, slots;
    ln := ln + Count(data, NEWLINE);
    slots := slots[tabIdx := Some(CartModel.Tab(ln, Borrowed(data)))];
    LoopDone(lineNumber, sectionData, done, data, tabIdx, ln0, slots0, ln, slots);
    tabs := slots;
  }

  /**
   * The loop state: the pieces recorded so far, `done`, followed by the
   * separated pieces still in `data`, are the payload's separated pieces;
   * `data` has the payload's last piece; the counter has seen the newlines
   * of `done`; and the slots hold exactly `done`.
   */
  ghost predicate LoopState(lineNumber: nat, sectionData: seq<Byte>, done: seq<seq<Byte>>,
                            data: seq<Byte>, tabIdx: nat, ln: nat, slots: seq<Option<CartModel.Tab>>)
  {
    tabIdx == |done| && |SeparatedPieces(sectionData)| < MAX_TABS && SeparatedPieces(sectionData) != []
    && SeparatedPieces(sectionData) == done + SeparatedPieces(data)
    && LastPiece(data) == LastPiece(sectionData)
    && ln == lineNumber + NewlinesThrough(done, |done|)
    && slots == DraftFilledTabs(lineNumber, done, |done|)
  }

  lemma {:induction false} LoopStart(lineNumber: nat, sectionData: seq<Byte>)
    requires |SeparatedPieces(sectionData)| < MAX_TABS
    requires Bytes.SplitAtSequenceExclusive(sectionData, TAB_SEQUENCE).Some?
    ensures LoopState(lineNumber, sectionData, [], sectionData, 0, lineNumber, NO_DRAFT_TABS)
  {
    PiecesCons(sectionData);
    assert [] + SeparatedPieces(sectionData) == SeparatedPieces(sectionData);
    assert DraftFilledTabs(lineNumber, [], 0) == NO_DRAFT_TABS;
  }

  /** Without a separator, the whole payload goes to slot 0 at the start line. */
  lemma {:induction false} TabsWithoutSeparator(lineNumber: nat, data: seq<Byte>)
    requires Bytes.SplitAtSequenceExclusive(data, TAB_SEQUENCE).None?
    ensures |SeparatedPieces(data)| < MAX_TABS
    ensures DraftCodeTabsOf(lineNumber, data) == NO_DRAFT_TABS[0 := Some(CartModel.Tab(lineNumber, Borrowed(data)))]
  {
    PiecesNil(data);
  }

  /** The loop state leaves a free slot for the next tab. */
  lemma {:induction false} LoopRoom(lineNumber: nat, sectionData: seq<Byte>, done: seq<seq<Byte>>, data: seq<Byte>,
                 tabIdx: nat, ln: nat, slots: seq<Option<CartModel.Tab>>)
    requires LoopState(lineNumber, sectionData, done, data, tabIdx, ln, slots)
    ensures tabIdx < MAX_TABS == |slots|
  {
  }

  /**
   * One pass of the loop: recording the piece before the next separator
   * in the next slot, at the counter advanced by its newlines, keeps the
   * loop state.
   */
  lemma {:induction false} LoopAdvance(lineNumber: nat, sectionData: seq<Byte>, done0: seq<seq<Byte>>, data0: seq<Byte>,
                                       tabIdx0: nat, ln0: nat, slots0: seq<Option<CartModel.Tab>>, code: seq<Byte>,
                                       done: seq<seq<Byte>>, data: seq<Byte>, tabIdx: nat, ln: nat,
                                       slots: seq<Option<CartModel.Tab>>)
    requires LoopState(lineNumber, sectionData, done0, data0, tabIdx0, ln0, slots0)
    requires Bytes.SplitAtSequenceExclusive(data0, TAB_SEQUENCE).Some?
    requires code == Bytes.SplitAtSequenceExclusive(data0, TAB_SEQUENCE).value.0
    requires data == Bytes.SplitAtSequenceExclusive(data0, TAB_SEQUENCE).value.1
    requires done == done0 + [code] && tabIdx == tabIdx0 + 1 && ln == ln0 + Count(code, NEWLINE)
    requires tabIdx0 < |slots0| && slots == slots0[tabIdx0 := Some(CartModel.Tab(ln, Borrowed(code)))]
    ensures LoopState(lineNumber, sectionData, done, data, tabIdx, ln, slots)
    ensures |data| < |data0|
  {
    PiecesAdvance(sectionData, done0, data0, code, done, data);
    DraftFilledTabsAppend(lineNumber, done0, code, done, tabIdx0, ln0, ln);
    var tab := CartModel.Tab(ln, Borrowed(code));
    SetSlot(slots0, DraftFilledTabs(lineNumber, done0, |done0|), tabIdx0, tab, tab, DraftFilledTabs(lineNumber, done, |done|));
  }

  /** Moving one separated piece from `data` to `done` keeps the pieces and the last piece. */
  lemma {:induction false} PiecesAdvance(sectionData: seq<Byte>, done0: seq<seq<Byte>>, data0: seq<Byte>,
                                         code: seq<Byte>, done: seq<seq<Byte>>, data: seq<Byte>)
    requires SeparatedPieces(sectionData) == done0 + SeparatedPieces(data0)
    requires LastPiece(data0) == LastPiece(sectionData)
    requires Bytes.SplitAtSequenceExclusive(data0, TAB_SEQUENCE).Some?
    requires code == Bytes.SplitAtSequenceExclusive(data0, TAB_SEQUENCE).value.0
    requires data == Bytes.SplitAtSequenceExclusive(data0, TAB_SEQUENCE).value.1
    requires done == done0 + [code]
    ensures SeparatedPieces(sectionData) == done + SeparatedPieces(data)
    ensures LastPiece(data) == LastPiece(sectionData)
    ensures |done| <= |SeparatedPieces(sectionData)|
  {
    PiecesCons(data0);
    ShiftHead(done0, code, SeparatedPieces(data));
  }

  /**
   * When no separator is left, recording the rest of the payload in the
   * next slot, at the counter advanced by its newlines, gives the tabs of
   * the payload.
   */
  lemma {:induction false} LoopDone(lineNumber: nat, sectionData: seq<Byte>, done: seq<seq<Byte>>, data: seq<Byte>,
                                    tabIdx: nat, ln0: nat, slots0: seq<Option<CartModel.Tab>>, ln: nat,
                                    tabs: seq<Option<CartModel.Tab>>)
    requires LoopState(lineNumber, sectionData, done, data, tabIdx, ln0, slots0)
    requires Bytes.SplitAtSequenceExclusive(data, TAB_SEQUENCE).None?
    requires ln == ln0 + Count(data, NEWLINE)
    requires tabIdx < |slots0| && tabs == slots0[tabIdx := Some(CartModel.Tab(ln, Borrowed(data)))]
    ensures tabs == DraftCodeTabsOf(lineNumber, sectionData)
  {
    var sep, last, total := SeparatedPieces(sectionData), LastPiece(sectionData), Count(sectionData, NEWLINE);
    assert done == sep && data == last && ln == lineNumber + total by {
      PiecesNil(data);
      PiecesDone(sectionData, done, data);
      NewlinesThroughAll(done, data, sectionData);
    }
    DraftCodeTabsUnfold(lineNumber, sectionData);
    FillLast(slots0, lineNumber, sectionData, sep, last, total, tabIdx, ln, data, tabs, DraftCodeTabsOf(lineNumber, sectionData));
  }

  lemma {:induction false} DraftCodeTabsUnfold(lineNumber: nat, data: seq<Byte>)
    requires |SeparatedPieces(data)| < MAX_TABS
    ensures DraftCodeTabsOf(lineNumber, data)
            == TabsOfPieces(lineNumber, data, SeparatedPieces(data), LastPiece(data), Count(data, NEWLINE))
  {
  }

  /** Filling the last piece after the separated pieces completes the tab array. */
  lemma {:induction false} FillLast(slots0: seq<Option<CartModel.Tab>>, lineNumber: nat, whole: seq<Byte>,
                                    sep: seq<seq<Byte>>, last: seq<Byte>, total: nat, k: nat, ln: nat, code: seq<Byte>,
                                    tabs: seq<Option<CartModel.Tab>>, result: DraftCodeTabs)
    requires |sep| < MAX_TABS && sep != [] && slots0 == DraftFilledTabs(lineNumber, sep, |sep|) && k == |sep|
    requires ln == lineNumber + total && code == last
    requires tabs == slots0[k := Some(CartModel.Tab(ln, Borrowed(code)))]
    requires result == TabsOfPieces(lineNumber, whole, sep, last, total)
    ensures tabs == result
  {
  }

  lemma {:induction false} SetSlot(slots: seq<Option<CartModel.Tab>>, filled: seq<Option<CartModel.Tab>>, k: nat,
                tab: CartModel.Tab, last: CartModel.Tab, result: seq<Option<CartModel.Tab>>)
    requires slots == filled && tab == last && k < |filled| && result == filled[k := Some(last)]
    ensures slots[k := Some(tab)] == result
  {
  }

  /** Once `data` holds no separator, `done` is every separated piece and `data` the last piece. */
  lemma {:induction false} PiecesDone(sectionData: seq<Byte>, done: seq<seq<Byte>>, data: seq<Byte>)
    requires SeparatedPieces(sectionData) == done + SeparatedPieces(data)
    requires LastPiece(data) == LastPiece(sectionData)
    requires SeparatedPieces(data) == [] && LastPiece(data) == data
    ensures done == SeparatedPieces(sectionData) && data == LastPiece(sectionData)
    ensures Concat(done) + data == sectionData
  {
    assert done + [] == done;
    PiecesConcat(sectionData);
  }
}
