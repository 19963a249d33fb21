/**
 * The latest cartridge model: reading a `.p8` source into a `CartData`
 * record (header split, marker-line scan, slicing the sections out, the
 * builder fold, the Lua code split into editor tabs) and writing it back.
 */
module CartModel {
  import opened Wrappers
  import opened Bytes
  import opened Section
  import Header

  // ---------------------------------------------------------------------
  // get_section_delimiters
  // ---------------------------------------------------------------------

  function UnwrapOrDefault(o: Option<nat>): nat
  {
    match o
    case None => 0
    case Some(n) => n
  }

  /** A line classifier; `get_line_type` is the one the cartridge code uses. */
  type Classifier = seq<Byte> -> Option<SectionType>

  /**
   * The delimiters for `lines`, whose first line has number `lineNumber`
   * and starts at byte `byteOffset`: one per line `classify` accepts, in
   * line order.
   */
  function ScanDelimiters(classify: Classifier, lines: seq<seq<Byte>>, lineNumber: nat, byteOffset: nat): seq<SectionDelimiter>
    decreases |lines|
  {
    if lines == [] then []
    else
      var rest := ScanDelimiters(classify, lines[1..], lineNumber + 1, byteOffset + |lines[0]|);
      match classify(lines[0])
      case None => rest
      case Some(t) => [SectionDelimiter(t, lineNumber, byteOffset)] + rest
  }

  /** What `get_section_delimiters` yields: lines are numbered from `offset + 1`. */
  function SectionDelimiters(src: seq<Byte>, lineNumberOffset: Option<nat>): seq<SectionDelimiter>
  {
    ScanDelimiters(GetLineType, Lines(src), UnwrapOrDefault(lineNumberOffset) + 1, 0)
  }

  /** `get_section_delimiters`: walks the lines, accumulating the byte offset. */
  method GetSectionDelimiters(src: seq<Byte>, lineNumberOffset: Option<nat>) returns (ds: seq<SectionDelimiter>)
    ensures ds == SectionDelimiters(src, lineNumberOffset)
  {
    ds := ScanLines(GetLineType, src, UnwrapOrDefault(lineNumberOffset) + 1);
  }

  /**
   * The loop of `get_section_delimiters`, for any line classifier: a
   * `NewlineIter` walk that records each accepted line's number and offset.
   */
  method ScanLines(classify: Classifier, src: seq<Byte>, base: nat) returns (ds: seq<SectionDelimiter>)
    ensures ds == ScanDelimiters(classify, Lines(src), base, 0)
  {
    var iter := new NewlineIter(src);
    var byteOffset: nat := 0;
    var index: nat := 0;
    ds := [];
    ghost var lines := Lines(src);
    while true
      invariant index <= |lines| && iter.Remaining() == lines[index..]
      invariant byteOffset == |Concat(lines[..index])|
      invariant ds == ScanDelimiters(classify, lines[..index], base, 0)
      decreases |lines| - index
    {
      ghost var rest0 := iter.Remaining();
      var line := iter.Next();
      if line.None? {
        break;
      }
      var lineNumberWithOffset: nat := index + base;
      var lineType := classify(line.value);
      var delimiter := DelimiterOf(lineType, lineNumberWithOffset, byteOffset);
      ghost var index0, byteOffset0, ds0 := index, byteOffset, ds;
      byteOffset := byteOffset + |line.value|;
      ds := ds + delimiter;
      index := index + 1;
      ScanLinesStep(classify, lines, base, index0, byteOffset0, ds0, rest0, line.value, lineNumberWithOffset, lineType,
                    delimiter, index, byteOffset, ds, iter.Remaining());
    }
    assert lines[..index] == lines;
  }

  /** The delimiter of a line of type `lineType`, if it has one. */
  function DelimiterOf(lineType: Option<SectionType>, lineNumber: nat, byteOffset: nat): seq<SectionDelimiter>
  {
    match lineType
    case None => []
    case Some(t) => [SectionDelimiter(t, lineNumber, byteOffset)]
  }

  /** One pass of the `get_section_delimiters` loop keeps its invariant. */
  lemma {:induction false} ScanLinesStep(classify: Classifier, lines: seq<seq<Byte>>, base: nat,
                                         index0: nat, byteOffset0: nat, ds0: seq<SectionDelimiter>, rest0: seq<seq<Byte>>,
                                         line: seq<Byte>, lineNumber: nat, lineType: Option<SectionType>,
                                         delimiter: seq<SectionDelimiter>,
                                         index: nat, byteOffset: nat, ds: seq<SectionDelimiter>, rest: seq<seq<Byte>>)
    requires index0 <= |lines| && rest0 == lines[index0..] && byteOffset0 == |Concat(lines[..index0])|
    requires ds0 == ScanDelimiters(classify, lines[..index0], base, 0)
    requires rest0 != [] && line == rest0[0] && rest == rest0[1..]
    requires lineType == classify(line)
    requires lineNumber == index0 + base && delimiter == DelimiterOf(lineType, lineNumber, byteOffset0)
    requires index == index0 + 1 && byteOffset == byteOffset0 + |line| && ds == ds0 + delimiter
    ensures index <= |lines| && rest == lines[index..]
    ensures byteOffset == |Concat(lines[..index])|
    ensures ds == ScanDelimiters(classify, lines[..index], base, 0)
  {
    assert line == lines[index0];
    ScanDelimitersExtend(classify, lines, index0, base, lineType, delimiter);
  }

  /** One more line scanned adds that line's delimiter, if any. */
  lemma {:induction false} ScanDelimitersExtend(classify: Classifier, lines: seq<seq<Byte>>, k: nat, lineNumber: nat,
                             lineType: Option<SectionType>, head: seq<SectionDelimiter>)
    requires k < |lines| && lineType == classify(lines[k])
    requires head == DelimiterOf(lineType, lineNumber + k, |Concat(lines[..k])|)
    ensures ScanDelimiters(classify, lines[..k + 1], lineNumber, 0) == ScanDelimiters(classify, lines[..k], lineNumber, 0) + head
    ensures |Concat(lines[..k + 1])| == |Concat(lines[..k])| + |lines[k]|
  {
    assert lines[..k + 1] == lines[..k] + [lines[k]];
    ScanDelimitersAppend(classify, lines[..k], [lines[k]], lineNumber, 0);
    ConcatAppend(lines[..k], [lines[k]]);
    assert Concat([lines[k]]) == lines[k];
  }

  /** The delimiter line `k` of `lines` gives, if `classify` accepts it. */
  function LineDelimiter(classify: Classifier, lines: seq<seq<Byte>>, k: nat, lineNumber: nat, byteOffset: nat): Option<SectionDelimiter>
    requires k < |lines|
  {
    match classify(lines[k])
    case None => None
    case Some(t) => Some(SectionDelimiter(t, lineNumber + k, byteOffset + |Concat(lines[..k])|))
  }

  lemma {:induction false} LineDelimiterShift(classify: Classifier, lines: seq<seq<Byte>>, k: nat, lineNumber: nat, byteOffset: nat)
    requires k + 1 < |lines|
    ensures LineDelimiter(classify, lines, k + 1, lineNumber, byteOffset)
            == LineDelimiter(classify, lines[1..], k, lineNumber + 1, byteOffset + |lines[0]|)
  {
    assert lines[..k + 1][1..] == lines[1..][..k];
    assert lines[..k + 1][0] == lines[0];
  }

  /**
   * Every delimiter of the scan is the one of an accepted line: the line
   * its number names.
   */
  lemma {:induction false} ScanDelimitersSound(classify: Classifier, lines: seq<seq<Byte>>, lineNumber: nat, byteOffset: nat)
    ensures forall d | d in ScanDelimiters(classify, lines, lineNumber, byteOffset) ::
              lineNumber <= d.lineNumber < lineNumber + |lines|
              && LineDelimiter(classify, lines, d.lineNumber - lineNumber, lineNumber, byteOffset) == Some(d)
  {
    forall d | d in ScanDelimiters(classify, lines, lineNumber, byteOffset)
      ensures lineNumber <= d.lineNumber < lineNumber + |lines|
      ensures LineDelimiter(classify, lines, d.lineNumber - lineNumber, lineNumber, byteOffset) == Some(d)
    {
      ScanDelimiterLine(classify, lines, lineNumber, byteOffset, d);
    }
  }

  /** Every accepted line has its delimiter in the scan. */
  lemma {:induction false} ScanDelimitersComplete(classify: Classifier, lines: seq<seq<Byte>>, lineNumber: nat, byteOffset: nat)
    ensures forall k | 0 <= k < |lines| && LineDelimiter(classify, lines, k, lineNumber, byteOffset).Some? ::
              LineDelimiter(classify, lines, k, lineNumber, byteOffset).value
              in ScanDelimiters(classify, lines, lineNumber, byteOffset)
    decreases |lines|
  {
    if lines != [] {
      var n1, b1 := lineNumber + 1, byteOffset + |lines[0]|;
      var rest := ScanDelimiters(classify, lines[1..], n1, b1);
      var ds := ScanDelimiters(classify, lines, lineNumber, byteOffset);
      ScanDelimitersComplete(classify, lines[1..], n1, b1);
      assert lines[..0] == [];
      assert forall x | x in rest :: x in ds;
      forall k | 0 <= k < |lines| && LineDelimiter(classify, lines, k, lineNumber, byteOffset).Some?
        ensures LineDelimiter(classify, lines, k, lineNumber, byteOffset).value in ds
      {
        if k > 0 {
          LineDelimiterShift(classify, lines, k - 1, lineNumber, byteOffset);
        }
      }
    }
  }

  /** The scan's line numbers strictly grow and stay within the scanned lines. */
  lemma {:induction false} ScanDelimitersOrdered(classify: Classifier, lines: seq<seq<Byte>>, lineNumber: nat, byteOffset: nat)
    ensures forall i, j | 0 <= i < j < |ScanDelimiters(classify, lines, lineNumber, byteOffset)| ::
              ScanDelimiters(classify, lines, lineNumber, byteOffset)[i].lineNumber
              < ScanDelimiters(classify, lines, lineNumber, byteOffset)[j].lineNumber
    ensures forall i | 0 <= i < |ScanDelimiters(classify, lines, lineNumber, byteOffset)| ::
              lineNumber <= ScanDelimiters(classify, lines, lineNumber, byteOffset)[i].lineNumber < lineNumber + |lines|
    decreases |lines|
  {
    if lines != [] {
      var rest := ScanDelimiters(classify, lines[1..], lineNumber + 1, byteOffset + |lines[0]|);
      ScanDelimitersOrdered(classify, lines[1..], lineNumber + 1, byteOffset + |lines[0]|);
      var ds := ScanDelimiters(classify, lines, lineNumber, byteOffset);
      if classify(lines[0]).Some? {
        assert ds == [SectionDelimiter(classify(lines[0]).value, lineNumber, byteOffset)] + rest;
        assert forall i | 1 <= i < |ds| :: ds[i] == rest[i - 1];
      } else {
        assert ds == rest;
      }
    }
  }

  /** Line `k` of a source starts at byte `|Concat(lines[..k])|`. */
  lemma {:induction false} LineStart(src: seq<Byte>, k: nat)
    requires k < |Lines(src)|
    ensures |Concat(Lines(src)[..k])| + |Lines(src)[k]| <= |src|
    ensures src[|Concat(Lines(src)[..k])|..][..|Lines(src)[k]|] == Lines(src)[k]
  {
    var ls := Lines(src);
    LinesConcat(src);
    assert ls == ls[..k] + [ls[k]] + ls[k + 1..];
    ConcatAppend(ls[..k] + [ls[k]], ls[k + 1..]);
    ConcatAppend(ls[..k], [ls[k]]);
    assert Concat([ls[k]]) == ls[k];
  }

  /**
   * `get_section_delimiters` yields exactly one delimiter per marker line,
   * in line order: line `k` (0-based) of the source, if `get_line_type`
   * classifies it, gives number `k + offset + 1` and the byte offset where
   * that line starts.
   */
  lemma {:induction false} SectionDelimitersExact(src: seq<Byte>, lineNumberOffset: Option<nat>)
    ensures forall d | d in SectionDelimiters(src, lineNumberOffset) ::
              UnwrapOrDefault(lineNumberOffset) + 1 <= d.lineNumber < UnwrapOrDefault(lineNumberOffset) + 1 + |Lines(src)|
              && MarkerLineDelimiter(src, lineNumberOffset, d.lineNumber - (UnwrapOrDefault(lineNumberOffset) + 1)) == Some(d)
  {
    ScanDelimitersSound(GetLineType, Lines(src), UnwrapOrDefault(lineNumberOffset) + 1, 0);
  }

  /** Every marker line has its delimiter among those `get_section_delimiters` yields. */
  lemma {:induction false} SectionDelimitersComplete(src: seq<Byte>, lineNumberOffset: Option<nat>)
    ensures forall k | 0 <= k < |Lines(src)| && MarkerLineDelimiter(src, lineNumberOffset, k).Some? ::
              MarkerLineDelimiter(src, lineNumberOffset, k).value in SectionDelimiters(src, lineNumberOffset)
  {
    ScanDelimitersComplete(GetLineType, Lines(src), UnwrapOrDefault(lineNumberOffset) + 1, 0);
  }

  /** `get_section_delimiters` yields its delimiters in strictly increasing line order. */
  lemma {:induction false} SectionDelimitersOrdered(src: seq<Byte>, lineNumberOffset: Option<nat>)
    ensures forall i, j | 0 <= i < j < |SectionDelimiters(src, lineNumberOffset)| ::
              SectionDelimiters(src, lineNumberOffset)[i].lineNumber < SectionDelimiters(src, lineNumberOffset)[j].lineNumber
  {
    ScanDelimitersOrdered(GetLineType, Lines(src), UnwrapOrDefault(lineNumberOffset) + 1, 0);
  }

  /**
   * The delimiter line `k` of `src` gives under `get_line_type`: its type,
   * the number `offset + 1 + k` and the byte offset where the line starts.
   */
  function MarkerLineDelimiter(src: seq<Byte>, lineNumberOffset: Option<nat>, k: nat): Option<SectionDelimiter>
    requires k < |Lines(src)|
  {
    LineDelimiter(GetLineType, Lines(src), k, UnwrapOrDefault(lineNumberOffset) + 1, 0)
  }

  /** A classifier that only accepts lines starting with the marker of the type it returns. */
  ghost predicate MarkerClassifier(classify: Classifier)
  {
    forall line :: classify(line).Some? ==> Marker(classify(line).value) <= line
  }

  /** Every delimiter's byte offset points at its marker in the source. */
  lemma {:induction false} ScanDelimitersAtMarkers(classify: Classifier, src: seq<Byte>, base: nat)
    requires MarkerClassifier(classify)
    ensures forall d | d in ScanDelimiters(classify, Lines(src), base, 0) ::
              d.byteOffset + |Marker(d.sectionType)| <= |src|
              && src[d.byteOffset..d.byteOffset + |Marker(d.sectionType)|] == Marker(d.sectionType)
  {
    var ls := Lines(src);
    forall d | d in ScanDelimiters(classify, ls, base, 0)
      ensures d.byteOffset + |Marker(d.sectionType)| <= |src|
      ensures src[d.byteOffset..d.byteOffset + |Marker(d.sectionType)|] == Marker(d.sectionType)
    {
      ScanDelimiterAtMarker(classify, src, base, d);
    }
  }

  /** A delimiter of the scan is the one of the line its number names. */
  lemma {:induction false} ScanDelimiterLine(classify: Classifier, lines: seq<seq<Byte>>, lineNumber: nat, byteOffset: nat,
                                             d: SectionDelimiter)
    requires d in ScanDelimiters(classify, lines, lineNumber, byteOffset)
    ensures lineNumber <= d.lineNumber < lineNumber + |lines|
    ensures LineDelimiter(classify, lines, d.lineNumber - lineNumber, lineNumber, byteOffset) == Some(d)
    decreases |lines|
  {
    var n1, b1 := lineNumber + 1, byteOffset + |lines[0]|;
    var rest := ScanDelimiters(classify, lines[1..], n1, b1);
    var head := LineDelimiter(classify, lines, 0, lineNumber, byteOffset);
    assert lines[..0] == [];
    assert ScanDelimiters(classify, lines, lineNumber, byteOffset) == (if head.Some? then [head.value] else []) + rest;
    if d in rest {
      ScanDelimiterLine(classify, lines[1..], n1, b1, d);
      LineDelimiterShift(classify, lines, d.lineNumber - n1, lineNumber, byteOffset);
    }
  }

  lemma {:induction false} ScanDelimiterAtMarker(classify: Classifier, src: seq<Byte>, base: nat, d: SectionDelimiter)
    requires MarkerClassifier(classify) && d in ScanDelimiters(classify, Lines(src), base, 0)
    ensures d.byteOffset + |Marker(d.sectionType)| <= |src|
    ensures src[d.byteOffset..d.byteOffset + |Marker(d.sectionType)|] == Marker(d.sectionType)
  {
    ScanDelimiterLine(classify, Lines(src), base, 0, d);
    LineDelimiterAtMarker(classify, src, base, d.lineNumber - base, d);
  }

  lemma {:induction false} LineDelimiterAtMarker(classify: Classifier, src: seq<Byte>, base: nat, k: nat, d: SectionDelimiter)
    requires MarkerClassifier(classify)
    requires k < |Lines(src)| && LineDelimiter(classify, Lines(src), k, base, 0) == Some(d)
    ensures d.byteOffset + |Marker(d.sectionType)| <= |src|
    ensures src[d.byteOffset..d.byteOffset + |Marker(d.sectionType)|] == Marker(d.sectionType)
  {
    var ls := Lines(src);
    LineStart(src, k);
    assert classify(ls[k]) == Some(d.sectionType);
    PrefixAt(src, d.byteOffset, ls[k], Marker(d.sectionType));
  }

  /** A prefix of a piece of `src` found at offset `o` is found at `o` too. */
  lemma {:induction false} PrefixAt(src: seq<Byte>, o: nat, piece: seq<Byte>, m: seq<Byte>)
    requires o + |piece| <= |src| && src[o..][..|piece|] == piece && m <= piece
    ensures o + |m| <= |src| && src[o..o + |m|] == m
  {
    assert src[o..o + |m|] == src[o..][..|piece|][..|m|];
  }

  /**
   * The byte offset of every delimiter `get_section_delimiters` yields is
   * where its section's marker line starts in the source.
   */
  lemma {:induction false} SectionDelimitersAtMarkers(src: seq<Byte>, lineNumberOffset: Option<nat>)
    ensures forall d | d in SectionDelimiters(src, lineNumberOffset) ::
              d.byteOffset + |Marker(d.sectionType)| <= |src|
              && src[d.byteOffset..d.byteOffset + |Marker(d.sectionType)|] == Marker(d.sectionType)
  {
    assert MarkerClassifier(GetLineType);
    ScanDelimitersAtMarkers(GetLineType, src, UnwrapOrDefault(lineNumberOffset) + 1);
  }

  /** Scanning the lines of two pieces is scanning each, the second shifted. */
  lemma {:induction false} ScanDelimitersAppend(classify: Classifier, l1: seq<seq<Byte>>, l2: seq<seq<Byte>>, lineNumber: nat, byteOffset: nat)
    ensures ScanDelimiters(classify, l1 + l2, lineNumber, byteOffset)
            == ScanDelimiters(classify, l1, lineNumber, byteOffset)
               + ScanDelimiters(classify, l2, lineNumber + |l1|, byteOffset + |Concat(l1)|)
    decreases |l1|
  {
    if l1 == [] {
      assert l1 + l2 == l2;
    } else {
      assert (l1 + l2)[1..] == l1[1..] + l2;
      assert (l1 + l2)[0] == l1[0];
      ScanDelimitersAppend(classify, l1[1..], l2, lineNumber + 1, byteOffset + |l1[0]|);
    }
  }

  // ---------------------------------------------------------------------
  // Sorting (`Vec::sort`, stable, by line number)
  // ---------------------------------------------------------------------

  predicate SortedByLine(ds: seq<SectionDelimiter>)
  {
    forall i, j | 0 <= i < j < |ds| :: ds[i].lineNumber <= ds[j].lineNumber
  }

  /** Insert `d` after every element whose line number is not greater. */
  function InsertByLine(sorted: seq<SectionDelimiter>, d: SectionDelimiter): seq<SectionDelimiter>
  {
    if sorted == [] then [d]
    else if d.lineNumber < sorted[0].lineNumber then [d] + sorted
    else [sorted[0]] + InsertByLine(sorted[1..], d)
  }

  /** Inserting adds `d` and loses nothing. */
  lemma {:induction false} InsertByLinePermutes(sorted: seq<SectionDelimiter>, d: SectionDelimiter)
    ensures multiset(InsertByLine(sorted, d)) == multiset(sorted) + multiset{d}
  {
    if sorted != [] && d.lineNumber >= sorted[0].lineNumber {
      InsertByLinePermutes(sorted[1..], d);
      assert sorted == [sorted[0]] + sorted[1..];
    }
  }

  /** Inserting into a sorted sequence keeps it sorted. */
  lemma {:induction false} InsertByLineSorted(sorted: seq<SectionDelimiter>, d: SectionDelimiter)
    requires SortedByLine(sorted)
    ensures SortedByLine(InsertByLine(sorted, d))
    ensures InsertByLine(sorted, d)[0] == if sorted == [] || d.lineNumber < sorted[0].lineNumber then d else sorted[0]
  {
    if sorted == [] {
    } else if d.lineNumber < sorted[0].lineNumber {
      ConsSorted(d, sorted);
    } else {
      InsertByLineSorted(sorted[1..], d);
      ConsSorted(sorted[0], InsertByLine(sorted[1..], d));
    }
  }

  lemma {:induction false} ConsSorted(x: SectionDelimiter, t: seq<SectionDelimiter>)
    requires SortedByLine(t) && (t != [] ==> x.lineNumber <= t[0].lineNumber)
    ensures SortedByLine([x] + t)
  {
    var r := [x] + t;
    forall i, j | 0 <= i < j < |r|
      ensures r[i].lineNumber <= r[j].lineNumber
    {
      if i == 0 {
        assert r[j] == t[j - 1];
      }
    }
  }

  /** `sort()`: a stable sort of the delimiters by line number. */
  function SortByLine(ds: seq<SectionDelimiter>): (r: seq<SectionDelimiter>)
    ensures SortedByLine(r)
    ensures multiset(r) == multiset(ds)
  {
    if ds == [] then []
    else
      var init := SortByLine(ds[..|ds| - 1]);
      SortByLineStep(ds, init);
      InsertByLine(init, ds[|ds| - 1])
  }

  /** Inserting the last delimiter into the sorted others sorts all of them. */
  lemma {:induction false} SortByLineStep(ds: seq<SectionDelimiter>, init: seq<SectionDelimiter>)
    requires ds != [] && SortedByLine(init) && multiset(init) == multiset(ds[..|ds| - 1])
    ensures SortedByLine(InsertByLine(init, ds[|ds| - 1]))
    ensures multiset(InsertByLine(init, ds[|ds| - 1])) == multiset(ds)
  {
    InsertByLineSorted(init, ds[|ds| - 1]);
    InsertByLinePermutes(init, ds[|ds| - 1]);
    assert ds == ds[..|ds| - 1] + [ds[|ds| - 1]];
  }

  lemma {:induction false} InsertByLineLast(sorted: seq<SectionDelimiter>, d: SectionDelimiter)
    requires forall i | 0 <= i < |sorted| :: sorted[i].lineNumber <= d.lineNumber
    ensures InsertByLine(sorted, d) == sorted + [d]
  {
    if sorted != [] {
      InsertByLineLast(sorted[1..], d);
    }
  }

  /** Delimiters already in line order come back unchanged. */
  lemma {:induction false} SortByLineSorted(ds: seq<SectionDelimiter>)
    requires SortedByLine(ds)
    ensures SortByLine(ds) == ds
  {
    if ds != [] {
      var init := ds[..|ds| - 1];
      SortByLineSorted(init);
      InsertByLineLast(init, ds[|ds| - 1]);
    }
  }

  // ---------------------------------------------------------------------
  // get_sections
  // ---------------------------------------------------------------------

  /** `src.get(from..)`. */
  function SliceFrom(src: seq<Byte>, from: nat): Option<seq<Byte>>
  {
    if from <= |src| then Some(src[from..]) else None
  }

  /** `src.get(from..to)`: `None` when the range is reversed or runs past the end. */
  function Slice(src: seq<Byte>, from: nat, to: nat): Option<seq<Byte>>
  {
    if from <= to <= |src| then Some(src[from..to]) else None
  }

  /** Where a section's data starts: after its marker and the newline. */
  function DataStart(d: SectionDelimiter): nat
  {
    d.byteOffset + |Marker(d.sectionType)| + 1
  }

  function Reverse<T>(s: seq<T>): (r: seq<T>)
    ensures |r| == |s|
    ensures forall i | 0 <= i < |s| :: r[i] == s[|s| - 1 - i]
  {
    if s == [] then [] else [s[|s| - 1]] + Reverse(s[..|s| - 1])
  }

  /**
   * The bytes `get_sections` cuts for `d`: everything after its marker
   * line for the first delimiter of the walk (the last in line order),
   * otherwise up to `next`, the offset of the section after it.
   */
  function CutSource(src: seq<Byte>, d: SectionDelimiter, isFirst: bool, next: nat): Option<seq<Byte>>
  {
    if isFirst then SliceFrom(src, DataStart(d)) else Slice(src, DataStart(d), next)
  }

  /**
   * The reverse walk of `get_sections` over `rev` (delimiters, last line
   * first). A delimiter whose range is invalid is dropped and leaves
   * `next` unchanged.
   */
  function CutRev(src: seq<Byte>, rev: seq<SectionDelimiter>, isFirst: bool, next: nat): (r: seq<Section>)
    ensures |r| <= |rev|
    ensures forall i | 0 <= i < |r| :: r[i].sectionData.Borrowed?
    decreases |rev|
  {
    if rev == [] then []
    else
      var d := rev[0];
      match CutSource(src, d, isFirst, next)
      case None => CutRev(src, rev[1..], false, next)
      case Some(data) => [New(d.sectionType, d.lineNumber, data)] + CutRev(src, rev[1..], false, d.byteOffset)
  }

  /** What `get_sections` yields. */
  function SectionsOf(src: seq<Byte>, delimiters: seq<SectionDelimiter>): seq<Section>
  {
    CutRev(src, Reverse(SortByLine(delimiters)), true, 0)
  }

  /** One step of the walk, at position `idx` of `rev`. */
  lemma {:induction false} CutRevStep(src: seq<Byte>, rev: seq<SectionDelimiter>, idx: nat, next: nat)
    requires idx < |rev|
    ensures CutRev(src, rev[idx..], idx == 0, next)
            == match CutSource(src, rev[idx], idx == 0, next)
               case None => CutRev(src, rev[idx + 1..], false, next)
               case Some(data) => [New(rev[idx].sectionType, rev[idx].lineNumber, data)]
                                  + CutRev(src, rev[idx + 1..], false, rev[idx].byteOffset)
  {
    assert rev[idx..][0] == rev[idx] && rev[idx..][1..] == rev[idx + 1..];
  }

  /** `get_sections`: sort, then walk backwards tracking `next_section_offset`. */
  method GetSections(src: seq<Byte>, delimiters: seq<SectionDelimiter>) returns (sections: seq<Section>)
    ensures sections == SectionsOf(src, delimiters)
  {
    var sorted := SortByLine(delimiters);
    ghost var rev := Reverse(sorted);
    var nextSectionOffset: nat := 0;
    sections := [];
    var idx: nat := 0;
    while idx < |sorted|
      invariant 0 <= idx <= |sorted|
      invariant sections + CutRev(src, rev[idx..], idx == 0, nextSectionOffset) == CutRev(src, rev, true, 0)
    {
      var d := sorted[|sorted| - 1 - idx];
      var offsetWithoutTypeMarker := DataStart(d);
      var sectionSrc := if idx == 0 then SliceFrom(src, offsetWithoutTypeMarker)
                        else Slice(src, offsetWithoutTypeMarker, nextSectionOffset);
      ghost var idx0, next0, sections0 := idx, nextSectionOffset, sections;
      if sectionSrc.Some? {
        nextSectionOffset := d.byteOffset;
        sections := sections + [New(d.sectionType, d.lineNumber, sectionSrc.value)];
      }
      idx := idx + 1;
      GetSectionsStep(src, sorted, rev, idx0, next0, sections0, d, sectionSrc, idx, nextSectionOffset, sections);
    }
    assert rev[idx..] == [];
  }

  /** One pass of the loop: the walk's next delimiter moves from the pending cut to the sections. */
  lemma {:induction false} GetSectionsStep(src: seq<Byte>, sorted: seq<SectionDelimiter>, rev: seq<SectionDelimiter>,
                                           idx0: nat, next0: nat, sections0: seq<Section>, d: SectionDelimiter,
                                           cut: Option<seq<Byte>>, idx: nat, next: nat, sections: seq<Section>)
    requires rev == Reverse(sorted) && idx0 < |sorted|
    requires sections0 + CutRev(src, rev[idx0..], idx0 == 0, next0) == CutRev(src, rev, true, 0)
    requires d == sorted[|sorted| - 1 - idx0] && idx == idx0 + 1
    requires cut == if idx0 == 0 then SliceFrom(src, DataStart(d)) else Slice(src, DataStart(d), next0)
    requires cut.None? ==> next == next0 && sections == sections0
    requires cut.Some? ==> next == d.byteOffset && sections == sections0 + [New(d.sectionType, d.lineNumber, cut.value)]
    ensures sections + CutRev(src, rev[idx..], idx == 0, next) == CutRev(src, rev, true, 0)
  {
    assert rev[idx0] == d && cut == CutSource(src, d, idx0 == 0, next0);
    CutRevStep(src, rev, idx0, next0);
    if cut.Some? {
      ShiftHead(sections0, New(d.sectionType, d.lineNumber, cut.value), CutRev(src, rev[idx..], false, next));
    }
  }

  predicate NonIncreasing(ss: seq<Section>)
  {
    forall i, j | 0 <= i < j < |ss| :: ss[i].lineNumber >= ss[j].lineNumber
  }

  predicate NonIncreasingDelimiters(ds: seq<SectionDelimiter>)
  {
    forall i, j | 0 <= i < j < |ds| :: ds[i].lineNumber >= ds[j].lineNumber
  }

  lemma {:induction false} CutRevDescending(src: seq<Byte>, rev: seq<SectionDelimiter>, isFirst: bool, next: nat)
    requires NonIncreasingDelimiters(rev)
    ensures NonIncreasing(CutRev(src, rev, isFirst, next))
    ensures CutRev(src, rev, isFirst, next) != [] ==> CutRev(src, rev, isFirst, next)[0].lineNumber <= rev[0].lineNumber
    decreases |rev|
  {
    if rev != [] {
      var d, tail := rev[0], rev[1..];
      assert NonIncreasingDelimiters(tail) by {
        forall i, j | 0 <= i < j < |tail|
          ensures tail[i].lineNumber >= tail[j].lineNumber
        {
          assert tail[i] == rev[i + 1] && tail[j] == rev[j + 1];
        }
      }
      assert tail != [] ==> tail[0].lineNumber <= d.lineNumber by {
        if tail != [] {
          assert tail[0] == rev[1];
        }
      }
      match CutSource(src, d, isFirst, next)
      case None =>
        CutRevDescending(src, tail, false, next);
      case Some(data) =>
        CutRevDescending(src, tail, false, d.byteOffset);
        ConsNonIncreasing(New(d.sectionType, d.lineNumber, data), CutRev(src, tail, false, d.byteOffset));
    }
  }

  lemma {:induction false} ConsNonIncreasing(x: Section, t: seq<Section>)
    requires NonIncreasing(t) && (t != [] ==> t[0].lineNumber <= x.lineNumber)
    ensures NonIncreasing([x] + t)
  {
    var r := [x] + t;
    forall i, j | 0 <= i < j < |r|
      ensures r[i].lineNumber >= r[j].lineNumber
    {
      if i == 0 {
        assert r[j] == t[j - 1];
      } else {
        assert r[i] == t[i - 1] && r[j] == t[j - 1];
      }
    }
  }

  /** `get_sections` yields its sections in descending line order. */
  lemma {:induction false} SectionsDescending(src: seq<Byte>, delimiters: seq<SectionDelimiter>)
    ensures NonIncreasing(SectionsOf(src, delimiters))
  {
    var sorted := SortByLine(delimiters);
    CutRevDescending(src, Reverse(sorted), true, 0);
  }

  /** Where the data of the `i`-th of the sorted delimiters ends. */
  function DataEnd(src: seq<Byte>, ds: seq<SectionDelimiter>, i: nat): nat
    requires i < |ds|
  {
    if i + 1 < |ds| then ds[i + 1].byteOffset else |src|
  }

  /** Every range `get_sections` would cut is in bounds and not reversed. */
  predicate RangesValid(src: seq<Byte>, ds: seq<SectionDelimiter>)
  {
    forall i | 0 <= i < |ds| :: DataStart(ds[i]) <= DataEnd(src, ds, i) <= |src|
  }

  /** The section cut for the `i`-th of the sorted delimiters when every range is valid. */
  function ExpectedCut(src: seq<Byte>, ds: seq<SectionDelimiter>, i: nat): Section
    requires i < |ds| && RangesValid(src, ds)
  {
    New(ds[i].sectionType, ds[i].lineNumber, src[DataStart(ds[i])..DataEnd(src, ds, i)])
  }

  /** The sections cut for the first `k` of the sorted delimiters when every range is valid. */
  function ExpectedCuts(src: seq<Byte>, ds: seq<SectionDelimiter>, k: nat): (r: seq<Section>)
    requires k <= |ds| && RangesValid(src, ds)
    ensures |r| == k && forall i | 0 <= i < k :: r[i] == ExpectedCut(src, ds, i)
  {
    if k == 0 then [] else ExpectedCuts(src, ds, k - 1) + [ExpectedCut(src, ds, k - 1)]
  }

  lemma {:induction false} CutRevValidPrefix(src: seq<Byte>, ds: seq<SectionDelimiter>, k: nat, next: nat)
    requires RangesValid(src, ds) && k <= |ds|
    requires k > 0 ==> next == DataEnd(src, ds, k - 1)
    ensures CutRev(src, Reverse(ds[..k]), false, next) == Reverse(ExpectedCuts(src, ds, k))
  {
    if k > 0 {
      var d, prefix := ds[k - 1], ds[..k - 1];
      assert ds[..k][..k - 1] == prefix && ds[..k][k - 1] == d;
      ReverseCons(ds[..k]);
      var data := src[DataStart(d)..next];
      assert CutSource(src, d, false, next) == Some(data);
      CutRevCons(src, Reverse(ds[..k]), d, Reverse(prefix), next, data);
      CutRevValidPrefix(src, ds, k - 1, d.byteOffset);
      var expected := ExpectedCuts(src, ds, k);
      assert expected[..k - 1] == ExpectedCuts(src, ds, k - 1);
      ReverseCons(expected);
      assert expected[k - 1] == New(d.sectionType, d.lineNumber, data);
    }
  }

  lemma {:induction false} ReverseCons<T>(s: seq<T>)
    requires s != []
    ensures Reverse(s) == [s[|s| - 1]] + Reverse(s[..|s| - 1])
  {
  }

  /** A kept delimiter at the head of the walk. */
  lemma {:induction false} CutRevCons(src: seq<Byte>, rev: seq<SectionDelimiter>, d: SectionDelimiter,
                                      tail: seq<SectionDelimiter>, next: nat, data: seq<Byte>)
    requires rev == [d] + tail && CutSource(src, d, false, next) == Some(data)
    ensures CutRev(src, rev, false, next) == [New(d.sectionType, d.lineNumber, data)] + CutRev(src, tail, false, d.byteOffset)
  {
    assert rev[0] == d && rev[1..] == tail;
  }

  /** The walk treats its first delimiter as running to the end of the source. */
  lemma {:induction false} CutRevFirst(src: seq<Byte>, rev: seq<SectionDelimiter>)
    requires rev != [] && DataStart(rev[0]) <= |src|
    ensures CutRev(src, rev, true, 0) == CutRev(src, rev, false, |src|)
  {
    var a := DataStart(rev[0]);
    assert src[a..] == src[a..|src|];
    assert CutSource(src, rev[0], true, 0) == CutSource(src, rev[0], false, |src|);
  }

  /**
   * With every range valid, `get_sections` keeps every delimiter: the
   * last one's data runs from after its marker line to the end, every
   * other one's up to the next delimiter's offset, last line first.
   */
  lemma {:induction false} CutRevValid(src: seq<Byte>, ds: seq<SectionDelimiter>)
    requires RangesValid(src, ds)
    ensures CutRev(src, Reverse(ds), true, 0) == Reverse(ExpectedCuts(src, ds, |ds|))
  {
    if ds != [] {
      var k := |ds|;
      assert Reverse(ds)[0] == ds[k - 1];
      assert DataStart(ds[k - 1]) <= DataEnd(src, ds, k - 1);
      CutRevFirst(src, Reverse(ds));
      assert ds[..k] == ds;
      CutRevValidPrefix(src, ds, k, |src|);
    }
  }

  // ---------------------------------------------------------------------
  // Code tabs
  // ---------------------------------------------------------------------

  const MAX_CODE_EDITOR_TAB_COUNT: nat := 16

  /** One code-editor tab of the Lua section. */
  datatype Tab = Tab(lineNumber: nat, codeData: Cow)

  /** A non-code section's payload. */
  datatype Asset = Asset(lineNumber: nat, assetData: Cow)

  /** The cartridge label image (`Label` in the source). */
  datatype CartLabel = CartLabel(lineNumber: nat, labelData: Cow)

  /** The fixed array of tab slots. */
  type CodeTabs = s: seq<Option<Tab>> | |s| == MAX_CODE_EDITOR_TAB_COUNT
    witness [None, None, None, None, None, None, None, None, None, None, None, None, None, None, None, None]

  const NO_TABS: CodeTabs := [None, None, None, None, None, None, None, None, None, None, None, None, None, None, None, None]

  /** `get_code_tabs_from_lua_section` does not panic on `data`. */
  predicate TabsFit(data: seq<Byte>)
  {
    TabSplittable(data) && |TabSpans(data)| <= MAX_CODE_EDITOR_TAB_COUNT
  }

  /**
   * The line number recorded for tab `k`: tab 0 starts after the marker
   * line; each next tab adds the lines of the previous one, and one more
   * for a separator only from the second tab on, because the separator
   * is counted after the tab is recorded.
   */
  function TabStart(lineNumber: nat, spans: seq<seq<Byte>>, k: nat): nat
    requires k <= |spans|
  {
    if k == 0 then lineNumber + 1
    else TabStart(lineNumber, spans, k - 1) + |Lines(spans[k - 1])| + (if k - 1 >= 1 then 1 else 0)
  }

  /** The number of lines of the first `k` spans. */
  function LinesBefore(spans: seq<seq<Byte>>, k: nat): nat
    requires k <= |spans|
  {
    if k == 0 then 0 else LinesBefore(spans, k - 1) + |Lines(spans[k - 1])|
  }

  /**
   * Closed form: tab `k >= 1` is recorded at `lineNumber + k + lines of
   * the tabs before it`, one less than the line right after its separator.
   */
  lemma {:induction false} TabStartClosedForm(lineNumber: nat, spans: seq<seq<Byte>>, k: nat)
    requires 1 <= k <= |spans|
    ensures TabStart(lineNumber, spans, k) == lineNumber + k + LinesBefore(spans, k)
  {
    if k > 1 {
      TabStartClosedForm(lineNumber, spans, k - 1);
    }
  }

  /** The tab array with the first `k` spans recorded, the other slots `None`. */
  function FilledTabs(lineNumber: nat, spans: seq<seq<Byte>>, k: nat): CodeTabs
    requires k <= |spans| <= MAX_CODE_EDITOR_TAB_COUNT
  {
    seq(MAX_CODE_EDITOR_TAB_COUNT, i requires 0 <= i < MAX_CODE_EDITOR_TAB_COUNT =>
      if i < k then Some(Tab(TabStart(lineNumber, spans, i), Borrowed(spans[i]))) else None)
  }

  /** Recording span `k` fills slot `k` and leaves the others. */
  lemma {:induction false} FilledTabsStep(lineNumber: nat, spans: seq<seq<Byte>>, k: nat)
    requires k < |spans| <= MAX_CODE_EDITOR_TAB_COUNT
    ensures FilledTabs(lineNumber, spans, k + 1)
            == FilledTabs(lineNumber, spans, k)[k := Some(Tab(TabStart(lineNumber, spans, k), Borrowed(spans[k])))]
  {
  }

  /**
   * The tab array the Lua section at `lineNumber` with payload `data`
   * gives: slot `i` holds the `i`-th span between separator lines and the
   * line it was recorded at; slots past the last span are `None`.
   */
  function CodeTabsOf(lineNumber: nat, data: seq<Byte>): (r: CodeTabs)
    requires TabsFit(data)
    ensures forall i | 0 <= i < MAX_CODE_EDITOR_TAB_COUNT ::
              r[i].Some? <==> i < |TabSpans(data)|
    ensures forall i | 0 <= i < |TabSpans(data)| ::
              r[i] == Some(Tab(TabStart(lineNumber, TabSpans(data), i), Borrowed(TabSpans(data)[i])))
  {
    FilledTabs(lineNumber, TabSpans(data), |TabSpans(data)|)
  }

  /**
   * `get_code_tabs_from_lua_section`: fills the tab array from `TabIter`;
   * more than 16 spans would index past the array, a separator at the very
   * end would make `TabIter` panic.
   */
  method GetCodeTabsFromLuaSection(lineNumber: nat, sectionData: seq<Byte>) returns (tabs: CodeTabs)
    requires TabsFit(sectionData)
    ensures tabs == CodeTabsOf(lineNumber, sectionData)
  {
    var slots: seq<Option<Tab>> := NO_TABS;
    ghost var spans := TabSpans(sectionData);
    var ln: nat := lineNumber + 1;
    var iter := new TabIter(sectionData);
    var tabIndex: nat := 0;
    assert slots == FilledTabs(lineNumber, spans, 0);
    while true
      invariant fresh(iter) && iter.Valid() && tabIndex <= |spans|
      invariant iter.Remaining() == spans[tabIndex..]
      invariant ln == TabStart(lineNumber, spans, tabIndex)
      invariant slots == FilledTabs(lineNumber, spans, tabIndex)
      decreases |iter.Remaining()|
    {
      ghost var rest0 := iter.Remaining();
      var tabData := iter.Next();
      if tabData.None? {
        break;
      }
      var tab := Tab(ln, Borrowed(tabData.value));
      ghost var ln0, tabIndex0, slots0 := ln, tabIndex, slots;
      if tabIndex != 0 {
        ln := ln + 1;
      }
      slots := slots[tabIndex := Some(tab)];
      var linesInSection := CountLines(tabData.value);
      ln := ln + linesInSection;
      tabIndex := tabIndex + 1;
      CodeTabsStep(lineNumber, spans, rest0, tabData.value, tabIndex0, ln0, slots0, linesInSection,
                   tabIndex, ln, slots, iter.Remaining());
    }
    tabs := slots;
  }

  /** One pass of the loop: the next span is recorded in the next slot and the line count moves past it. */
  lemma {:induction false} CodeTabsStep(lineNumber: nat, spans: seq<seq<Byte>>, rest0: seq<seq<Byte>>, span: seq<Byte>,
                                        k0: nat, ln0: nat, slots0: seq<Option<Tab>>, lines: nat,
                                        k: nat, ln: nat, slots: seq<Option<Tab>>, rest: seq<seq<Byte>>)
    requires |spans| <= MAX_CODE_EDITOR_TAB_COUNT && k0 <= |spans| && rest0 == spans[k0..]
    requires ln0 == TabStart(lineNumber, spans, k0) && slots0 == FilledTabs(lineNumber, spans, k0)
    requires rest0 != [] && span == rest0[0] && rest == rest0[1..]
    requires lines == |Lines(span)| && k == k0 + 1 && ln == ln0 + (if k0 != 0 then 1 else 0) + lines
    requires slots == slots0[k0 := Some(Tab(ln0, Borrowed(span)))]
    ensures k <= |spans| && rest == spans[k..]
    ensures ln == TabStart(lineNumber, spans, k) && slots == FilledTabs(lineNumber, spans, k)
  {
    assert span == spans[k0] && rest == spans[k..];
    FilledTabsStep(lineNumber, spans, k0);
  }

  // ---------------------------------------------------------------------
  // The builder
  // ---------------------------------------------------------------------

  datatype CartDataBuilder = CartDataBuilder(
    cartLabel: Option<CartLabel>,
    gfx: Option<Asset>,
    gff: Option<Asset>,
    tileMap: Option<Asset>,
    sfx: Option<Asset>,
    music: Option<Asset>,
    codeTabs: CodeTabs)

  const DEFAULT_BUILDER: CartDataBuilder := CartDataBuilder(None, None, None, None, None, None, NO_TABS)

  /** The fold panics on an owned Lua section, and the tab split must not panic. */
  predicate LuaSectionOk(s: Section)
  {
    s.LuaSection? ==> s.sectionData.Borrowed? && TabsFit(s.sectionData.bytes)
  }

  predicate AllLuaSectionsOk(ss: seq<Section>)
  {
    forall i | 0 <= i < |ss| :: LuaSectionOk(ss[i])
  }

  /** One step of the fold: the section overwrites its slot. */
  function Absorb(acc: CartDataBuilder, s: Section): CartDataBuilder
    requires LuaSectionOk(s)
  {
    match s
    case LuaSection(n, d) => acc.(codeTabs := CodeTabsOf(n, d.bytes))
    case GfxSection(n, d) => acc.(gfx := Some(Asset(n, d)))
    case GffSection(n, d) => acc.(gff := Some(Asset(n, d)))
    case SfxSection(n, d) => acc.(sfx := Some(Asset(n, d)))
    case MapSection(n, d) => acc.(tileMap := Some(Asset(n, d)))
    case MusicSection(n, d) => acc.(music := Some(Asset(n, d)))
    case LabelSection(n, d) => acc.(cartLabel := Some(CartLabel(n, d)))
  }

  /** `CartDataBuilder::from_iter`: a left fold from the default builder. */
  function FromIter(ss: seq<Section>): CartDataBuilder
    requires AllLuaSectionsOk(ss)
  {
    if ss == [] then DEFAULT_BUILDER else Absorb(FromIter(ss[..|ss| - 1]), ss[|ss| - 1])
  }

  /** The last section of type `t` in `ss`, if any. */
  function LastOfType(ss: seq<Section>, t: SectionType): (r: Option<Section>)
    ensures r.Some? ==> r.value in ss && GetType(r.value) == t
    ensures r.None? <==> forall i | 0 <= i < |ss| :: GetType(ss[i]) != t
  {
    if ss == [] then None
    else if GetType(ss[|ss| - 1]) == t then Some(ss[|ss| - 1])
    else
      var r := LastOfType(ss[..|ss| - 1], t);
      assert forall i | 0 <= i < |ss| - 1 :: ss[..|ss| - 1][i] == ss[i];
      r
  }

  function AssetOf(s: Option<Section>): Option<Asset>
  {
    match s
    case None => None
    case Some(x) => Some(Asset(x.lineNumber, x.sectionData))
  }

  /** The builder slot a non-code, non-label section type fills. */
  function AssetSlot(b: CartDataBuilder, t: SectionType): Option<Asset>
    requires t != Lua && t != Label
  {
    match t
    case Gfx => b.gfx
    case Gff => b.gff
    case Map => b.tileMap
    case Sfx => b.sfx
    case Music => b.music
  }

  lemma {:induction false} AllLuaSectionsOkInit(ss: seq<Section>)
    requires ss != [] && AllLuaSectionsOk(ss)
    ensures AllLuaSectionsOk(ss[..|ss| - 1]) && LuaSectionOk(ss[|ss| - 1])
  {
    assert forall i | 0 <= i < |ss| - 1 :: ss[..|ss| - 1][i] == ss[i];
  }

  /** Each asset slot holds the last section of its type. */
  lemma {:induction false} FromIterAssetSlot(ss: seq<Section>, t: SectionType)
    requires AllLuaSectionsOk(ss) && t != Lua && t != Label
    ensures AssetSlot(FromIter(ss), t) == AssetOf(LastOfType(ss, t))
  {
    if ss != [] {
      AllLuaSectionsOkInit(ss);
      FromIterAssetSlot(ss[..|ss| - 1], t);
    }
  }

  /** The label slot holds the last label section. */
  lemma {:induction false} FromIterLabelSlot(ss: seq<Section>)
    requires AllLuaSectionsOk(ss)
    ensures FromIter(ss).cartLabel == match LastOfType(ss, Label)
              case None => None
              case Some(s) => Some(CartLabel(s.lineNumber, s.sectionData))
  {
    if ss != [] {
      AllLuaSectionsOkInit(ss);
      FromIterLabelSlot(ss[..|ss| - 1]);
    }
  }

  /** The tab array comes from the last Lua section. */
  lemma {:induction false} FromIterCodeSlot(ss: seq<Section>)
    requires AllLuaSectionsOk(ss)
    ensures LastOfType(ss, Lua).Some? ==> LuaSectionOk(LastOfType(ss, Lua).value)
    ensures FromIter(ss).codeTabs == match LastOfType(ss, Lua)
              case None => NO_TABS
              case Some(s) => CodeTabsOf(s.lineNumber, s.sectionData.bytes)
  {
    if ss != [] {
      var init, last := ss[..|ss| - 1], ss[|ss| - 1];
      AllLuaSectionsOkInit(ss);
      FromIterCodeSlot(init);
      if last.LuaSection? {
        assert LastOfType(ss, Lua) == Some(last);
        assert FromIter(ss).codeTabs == CodeTabsOf(last.lineNumber, last.sectionData.bytes);
      } else {
        assert LastOfType(ss, Lua) == LastOfType(init, Lua);
        assert FromIter(ss).codeTabs == FromIter(init).codeTabs;
      }
    }
  }

  /**
   * The fold keeps, per slot, the last section of that type; the tab array
   * comes from the last Lua section, or stays all `None`.
   */
  lemma {:induction false} FromIterLastWins(ss: seq<Section>)
    requires AllLuaSectionsOk(ss)
    ensures FromIter(ss).gfx == AssetOf(LastOfType(ss, Gfx))
    ensures FromIter(ss).gff == AssetOf(LastOfType(ss, Gff))
    ensures FromIter(ss).tileMap == AssetOf(LastOfType(ss, Map))
    ensures FromIter(ss).sfx == AssetOf(LastOfType(ss, Sfx))
    ensures FromIter(ss).music == AssetOf(LastOfType(ss, Music))
    ensures FromIter(ss).cartLabel == match LastOfType(ss, Label)
              case None => None
              case Some(s) => Some(CartLabel(s.lineNumber, s.sectionData))
    ensures LastOfType(ss, Lua).Some? ==> LuaSectionOk(LastOfType(ss, Lua).value)
    ensures FromIter(ss).codeTabs == match LastOfType(ss, Lua)
              case None => NO_TABS
              case Some(s) => CodeTabsOf(s.lineNumber, s.sectionData.bytes)
  {
    FromIterAssetSlot(ss, Gfx);
    FromIterAssetSlot(ss, Gff);
    FromIterAssetSlot(ss, Map);
    FromIterAssetSlot(ss, Sfx);
    FromIterAssetSlot(ss, Music);
    FromIterLabelSlot(ss);
    FromIterCodeSlot(ss);
  }

  /**
   * Sections folded in descending line order (as `get_sections` yields
   * them): of several sections of one type, the one earliest in the file wins.
   */
  lemma {:induction false} LastOfTypeIsEarliest(ss: seq<Section>, t: SectionType)
    requires NonIncreasing(ss) && LastOfType(ss, t).Some?
    ensures forall i | 0 <= i < |ss| && GetType(ss[i]) == t ::
              LastOfType(ss, t).value.lineNumber <= ss[i].lineNumber
  {
    var init := ss[..|ss| - 1];
    if GetType(ss[|ss| - 1]) != t {
      assert NonIncreasing(init);
      assert LastOfType(ss, t) == LastOfType(init, t);
      LastOfTypeIsEarliest(init, t);
      assert forall i | 0 <= i < |init| :: init[i] == ss[i];
    }
  }

  // ---------------------------------------------------------------------
  // CartData
  // ---------------------------------------------------------------------

  datatype CartData = CartData(
    header: Cow,
    cartLabel: Option<CartLabel>,
    codeTabs: CodeTabs,
    gfx: Asset,
    gff: Option<Asset>,
    tileMap: Option<Asset>,
    sfx: Option<Asset>,
    music: Option<Asset>)

  /** `build_with`: `None` exactly when no Gfx section was seen. */
  function BuildWith(b: CartDataBuilder, header: seq<Byte>): (r: Option<CartData>)
    ensures r.None? <==> b.gfx.None?
    ensures r.Some? ==>
              r.value.header == Borrowed(header) && r.value.gfx == b.gfx.value
              && r.value.cartLabel == b.cartLabel && r.value.codeTabs == b.codeTabs
              && r.value.gff == b.gff && r.value.tileMap == b.tileMap
              && r.value.sfx == b.sfx && r.value.music == b.music
  {
    match b.gfx
    case None => None
    case Some(gfx) => Some(CartData(Borrowed(header), b.cartLabel, b.codeTabs, gfx, b.gff, b.tileMap, b.sfx, b.music))
  }

  /** The `io::Error`s of `from_cart_source` (both of kind `InvalidData`). */
  datatype CartError = MalformedHeader | MissingGfx

  /** The sections `from_cart_source` folds, for the remainder after the header. */
  function CartSections(remainder: seq<Byte>): seq<Section>
  {
    SectionsOf(remainder, SectionDelimiters(remainder, Some(2)))
  }

  /** `from_cart_source` does not panic on `src`. */
  predicate Parsable(src: seq<Byte>)
  {
    Header.StartsWithSignature(src)
    && (Header.HeaderSplit(src).Some? ==> AllLuaSectionsOk(CartSections(Header.HeaderSplit(src).value.1)))
  }

  /** What `from_cart_source` returns. */
  function ParseCart(src: seq<Byte>): (r: Result<CartData, CartError>)
    requires Parsable(src)
    ensures r == Err(MalformedHeader) <==> Header.HeaderSplit(src).None?
    ensures r.Ok? ==> r.value.header == Borrowed(Header.HeaderSplit(src).value.0)
  {
    match Header.HeaderSplit(src)
    case None => Err(MalformedHeader)
    case Some((header, remainder)) =>
      match BuildWith(FromIter(CartSections(remainder)), header)
      case None => Err(MissingGfx)
      case Some(cart) => Ok(cart)
  }

  /** Parsing fails for want of Gfx exactly when the sliced sections hold none. */
  lemma {:induction false} ParseCartMissingGfx(src: seq<Byte>)
    requires Parsable(src) && Header.HeaderSplit(src).Some?
    ensures ParseCart(src) == Err(MissingGfx) <==>
              forall s | s in CartSections(Header.HeaderSplit(src).value.1) :: GetType(s) != Gfx
  {
    FromIterLastWins(CartSections(Header.HeaderSplit(src).value.1));
  }

  /**
   * With line offset 2, the delimiter line numbers are 1-based line
   * numbers in the whole source, the two header lines included.
   */
  lemma {:induction false} ParseLineNumbersCountHeader(src: seq<Byte>)
    requires Header.StartsWithSignature(src) && Header.HeaderSplit(src).Some?
    ensures forall d | d in SectionDelimiters(Header.HeaderSplit(src).value.1, Some(2)) ::
              3 <= d.lineNumber <= |Lines(src)|
              && Marker(d.sectionType) <= Lines(src)[d.lineNumber - 1]
  {
    var rem := Header.HeaderSplit(src).value.1;
    Header.HeaderSplitLines(src);
    SectionDelimitersExact(rem, Some(2));
    forall d | d in SectionDelimiters(rem, Some(2))
      ensures 3 <= d.lineNumber <= |Lines(src)|
      ensures Marker(d.sectionType) <= Lines(src)[d.lineNumber - 1]
    {
      var k := d.lineNumber - 3;
      assert LineDelimiter(GetLineType, Lines(rem), k, 3, 0) == Some(d);
      assert Lines(rem)[k] == Lines(src)[k + 2];
    }
  }

  /** `from_cart_source`: header split, delimiter scan, slicing, fold, build. */
  method FromCartSource(src: seq<Byte>) returns (r: Result<CartData, CartError>)
    requires Parsable(src)
    ensures r == ParseCart(src)
  {
    var split := Header.SplitFrom(src);
    if split.None? {
      return Err(MalformedHeader);
    }
    var (header, remainder) := split.value;
    var delimiters := GetSectionDelimiters(remainder, Some(2));
    var sections := GetSections(remainder, delimiters);
    var cart := BuildWith(FromIter(sections), header);
    if cart.None? {
      return Err(MissingGfx);
    }
    r := Ok(cart.value);
  }

  /** `set_code_data`: replaces the tabs, nothing else. */
  function SetCodeData(c: CartData, codeTabs: CodeTabs): (r: CartData)
    ensures r.codeTabs == codeTabs
    ensures r.header == c.header && r.cartLabel == c.cartLabel && r.gfx == c.gfx && r.gff == c.gff
    ensures r.tileMap == c.tileMap && r.sfx == c.sfx && r.music == c.music
  {
    c.(codeTabs := codeTabs)
  }

  // ---------------------------------------------------------------------
  // from_parts
  // ---------------------------------------------------------------------

  /** The lines of every occupied tab, summed. */
  function CodeLineCount(tabs: seq<Option<Tab>>): nat
  {
    if tabs == [] then 0
    else
      (match tabs[0] case None => 0 case Some(t) => |Lines(t.codeData.bytes)|) + CodeLineCount(tabs[1..])
  }

  /**
   * `from_parts`: a cartridge of a header, tabs and Gfx data only; Gfx is
   * numbered after the header's and the tabs' lines.
   */
  function FromParts(header: seq<Byte>, codeTabs: CodeTabs, gfxData: seq<Byte>): (r: CartData)
    ensures r.header == Borrowed(header) && r.codeTabs == codeTabs
    ensures r.gfx == Asset(|Lines(header)| + CodeLineCount(codeTabs), Borrowed(gfxData))
    ensures r.cartLabel.None? && r.gff.None? && r.tileMap.None? && r.sfx.None? && r.music.None?
  {
    var gfxLineNumber := |Lines(header)| + CodeLineCount(codeTabs);
    CartData(Borrowed(header), None, codeTabs, Asset(gfxLineNumber, Borrowed(gfxData)), None, None, None, None)
  }

  /**
   * `from_parts` with Gfx numbered at the line where `into_cart_source`
   * writes its marker, counting from 1 as `from_cart_source` does: after
   * the header's lines and every line of the Lua block, its `__lua__`
   * line and the `-->8` lines between tabs included.
   */
  function FromPartsAtMarkerLine(header: seq<Byte>, codeTabs: CodeTabs, gfxData: seq<Byte>): CartData
  {
    var gfxLineNumber := |Lines(header)| + |Lines(LuaBlock(codeTabs))| + 1;
    FromParts(header, codeTabs, gfxData).(gfx := Asset(gfxLineNumber, Borrowed(gfxData)))
  }

  // ---------------------------------------------------------------------
  // into_owned
  // ---------------------------------------------------------------------

  function OwnTab(t: Option<Tab>): Option<Tab>
  {
    match t
    case None => None
    case Some(x) => Some(Tab(x.lineNumber, Owned(x.codeData.bytes)))
  }

  function OwnAsset(a: Option<Asset>): Option<Asset>
  {
    match a
    case None => None
    case Some(x) => Some(Asset(x.lineNumber, Owned(x.assetData.bytes)))
  }

  /** The record with every payload marked borrowed: Cow-ness forgotten. */
  function Unowned(c: CartData): CartData
  {
    CartData(
      Borrowed(c.header.bytes),
      match c.cartLabel case None => None case Some(l) => Some(CartLabel(l.lineNumber, Borrowed(l.labelData.bytes))),
      seq(MAX_CODE_EDITOR_TAB_COUNT, i requires 0 <= i < MAX_CODE_EDITOR_TAB_COUNT =>
        match c.codeTabs[i] case None => None case Some(t) => Some(Tab(t.lineNumber, Borrowed(t.codeData.bytes)))),
      Asset(c.gfx.lineNumber, Borrowed(c.gfx.assetData.bytes)),
      match c.gff case None => None case Some(a) => Some(Asset(a.lineNumber, Borrowed(a.assetData.bytes))),
      match c.tileMap case None => None case Some(a) => Some(Asset(a.lineNumber, Borrowed(a.assetData.bytes))),
      match c.sfx case None => None case Some(a) => Some(Asset(a.lineNumber, Borrowed(a.assetData.bytes))),
      match c.music case None => None case Some(a) => Some(Asset(a.lineNumber, Borrowed(a.assetData.bytes))))
  }

  predicate AllOwned(c: CartData)
  {
    c.header.Owned?
    && (c.cartLabel.Some? ==> c.cartLabel.value.labelData.Owned?)
    && (forall i | 0 <= i < MAX_CODE_EDITOR_TAB_COUNT :: c.codeTabs[i].Some? ==> c.codeTabs[i].value.codeData.Owned?)
    && c.gfx.assetData.Owned?
    && (c.gff.Some? ==> c.gff.value.assetData.Owned?)
    && (c.tileMap.Some? ==> c.tileMap.value.assetData.Owned?)
    && (c.sfx.Some? ==> c.sfx.value.assetData.Owned?)
    && (c.music.Some? ==> c.music.value.assetData.Owned?)
  }

  /** `CartData::into_owned`: copies every payload, line numbers and bytes unchanged. */
  method IntoOwned(c: CartData) returns (r: CartData)
    ensures Unowned(r) == Unowned(c)
    ensures AllOwned(r)
  {
    var ownedTabs := new Option<Tab>[MAX_CODE_EDITOR_TAB_COUNT](_ => None);
    for tabIdx := 0 to MAX_CODE_EDITOR_TAB_COUNT
      invariant forall i | 0 <= i < tabIdx :: ownedTabs[i] == OwnTab(c.codeTabs[i])
    {
      ownedTabs[tabIdx] := OwnTab(c.codeTabs[tabIdx]);
    }
    var ownedLabel := match c.cartLabel
      case None => None
      case Some(l) => Some(CartLabel(l.lineNumber, Owned(l.labelData.bytes)));
    r := CartData(Owned(c.header.bytes), ownedLabel, ownedTabs[..],
                  Asset(c.gfx.lineNumber, Owned(c.gfx.assetData.bytes)),
                  OwnAsset(c.gff), OwnAsset(c.tileMap), OwnAsset(c.sfx), OwnAsset(c.music));
  }

  // ---------------------------------------------------------------------
  // into_cart_source
  // ---------------------------------------------------------------------

  /** `SectionType::with_data`: the marker line, then the data. */
  function WithData(t: SectionType, data: seq<Byte>): seq<Byte>
  {
    Marker(t) + [NEWLINE] + data
  }

  /** What slot `i` contributes to the Lua code: slot 0 bare, later ones after `-->8\n`. */
  function TabChunk(i: nat, slot: Option<Tab>): seq<Byte>
  {
    match slot
    case None => []
    case Some(tab) => if i == 0 then tab.codeData.bytes else TAB_SEPARATOR_LINE + tab.codeData.bytes
  }

  /** The chunks of `slots`, the first of which is slot number `i`. */
  function JoinSlots(slots: seq<Option<Tab>>, i: nat): seq<Byte>
  {
    if slots == [] then [] else TabChunk(i, slots[0]) + JoinSlots(slots[1..], i + 1)
  }

  function OptionalBlock(t: SectionType, a: Option<Asset>): seq<Byte>
  {
    match a
    case None => []
    case Some(x) => WithData(t, x.assetData.bytes)
  }

  function LabelBlock(l: Option<CartLabel>): seq<Byte>
  {
    match l
    case None => []
    case Some(x) => WithData(Label, x.labelData.bytes)
  }

  /** The Lua section, written only when there is code. */
  function LuaBlock(tabs: CodeTabs): seq<Byte>
  {
    var code := JoinSlots(tabs, 0);
    if code == [] then [] else WithData(Lua, code)
  }

  /**
   * `into_cart_source`: the header, Lua, Gfx, then label, Gff, map, Sfx
   * and music, each optional one only when present.
   */
  function IntoCartSource(c: CartData): seq<Byte>
  {
    Header.CopyToBoxedSlice(c.header.bytes)
    + LuaBlock(c.codeTabs)
    + WithData(Gfx, c.gfx.assetData.bytes)
    + LabelBlock(c.cartLabel)
    + OptionalBlock(Gff, c.gff)
    + OptionalBlock(Map, c.tileMap)
    + OptionalBlock(Sfx, c.sfx)
    + OptionalBlock(Music, c.music)
  }
}
