/**
 * `into_cart_source` followed by `from_cart_source`: a cartridge written
 * out and read back has the same header, the same assets and the same
 * code tabs, byte for byte, as long as its payloads read back as
 * themselves (see `WellFormed`).
 */
module RoundTrip {
  import opened Wrappers
  import opened Bytes
  import opened Section
  import opened CartModel
  import Header
  import Text

  // ---------------------------------------------------------------------
  // Blocks: a marker line and its payload
  // ---------------------------------------------------------------------

  /** A section as `into_cart_source` writes it: its type and its payload. */
  datatype Block = Block(sectionType: SectionType, payload: seq<Byte>)

  /** The bytes of the blocks, one after another. */
  function Emit(bs: seq<Block>): seq<Byte>
  {
    if bs == [] then [] else WithData(bs[0].sectionType, bs[0].payload) + Emit(bs[1..])
  }

  lemma {:induction false} EmitAppend(a: seq<Block>, b: seq<Block>)
    ensures Emit(a + b) == Emit(a) + Emit(b)
  {
    if a == [] {
      assert a + b == b;
    } else {
      assert (a + b)[0] == a[0] && (a + b)[1..] == a[1..] + b;
      EmitAppend(a[1..], b);
    }
  }

  /** No line of `lines` is classified as a marker. */
  predicate Unclassified(classify: Classifier, lines: seq<seq<Byte>>)
  {
    forall k | 0 <= k < |lines| :: classify(lines[k]).None?
  }

  /**
   * A payload that reads back as itself under `classify`: empty or ending
   * in a newline, so the next marker starts a line, and without a line
   * `classify` takes for a marker.
   */
  predicate PlainUnder(classify: Classifier, p: seq<Byte>)
  {
    (p == [] || EndsInNewline(p)) && Unclassified(classify, Lines(p))
  }

  /** A payload no line of which starts with a section marker. */
  predicate PlainPayload(p: seq<Byte>)
  {
    PlainUnder(GetLineType, p)
  }

  predicate AllPlain(bs: seq<Block>)
  {
    forall i | 0 <= i < |bs| :: PlainPayload(bs[i].payload)
  }

  /** The marker line `with_data` writes. */
  function MarkerLine(t: SectionType): seq<Byte>
  {
    Marker(t) + [NEWLINE]
  }

  /** `classify` recognises every marker line as its own section type. */
  ghost predicate ClassifiesMarkers(classify: Classifier)
  {
    forall t: SectionType :: classify(MarkerLine(t)) == Some(t)
  }

  lemma {:induction false} MarkerLineIsLine(t: SectionType)
    ensures IsLine(MarkerLine(t)) && EndsInNewline(MarkerLine(t))
    ensures WithData(t, []) == MarkerLine(t)
  {
    assert MarkerLine(t)[..|MarkerLine(t)| - 1] == Marker(t);
  }

  /** `get_line_type` recognises the marker lines `with_data` writes. */
  lemma {:induction false} GetLineTypeClassifiesMarkers()
    ensures ClassifiesMarkers(GetLineType)
  {
    forall t: SectionType
      ensures GetLineType(MarkerLine(t)) == Some(t)
    {
      GetLineTypeOfMarker(t, [NEWLINE]);
    }
  }

  /** A block is its marker line, then the lines of its payload. */
  lemma {:induction false} BlockLines(t: SectionType, p: seq<Byte>, rest: seq<Byte>)
    requires p == [] || EndsInNewline(p)
    ensures Lines(WithData(t, p) + rest) == [MarkerLine(t)] + Lines(p) + Lines(rest)
  {
    MarkerLineIsLine(t);
    assert WithData(t, p) + rest == MarkerLine(t) + (p + rest);
    LinesOfLine(MarkerLine(t), p + rest);
    assert Lines(WithData(t, p) + rest) == [MarkerLine(t)] + Lines(p + rest);
    LinesAppend(p, rest);
    ConsAssoc(MarkerLine(t), Lines(p), Lines(rest));
  }

  /** The number of the line after a block whose marker line is numbered `lineNumber`. */
  function NextLine(b: Block, lineNumber: nat): nat
  {
    lineNumber + 1 + |Lines(b.payload)|
  }

  /** The offset of the byte after a block that starts at `byteOffset`. */
  function NextOffset(b: Block, byteOffset: nat): nat
  {
    byteOffset + |WithData(b.sectionType, b.payload)|
  }

  /** The delimiters of the blocks: one per block, at its marker line. */
  function BlockDelimiters(bs: seq<Block>, lineNumber: nat, byteOffset: nat): (r: seq<SectionDelimiter>)
    ensures |r| == |bs|
  {
    if bs == [] then []
    else
      [SectionDelimiter(bs[0].sectionType, lineNumber, byteOffset)]
      + BlockDelimiters(bs[1..], NextLine(bs[0], lineNumber), NextOffset(bs[0], byteOffset))
  }

  /** Lines no marker starts give no delimiters. */
  lemma {:induction false} ScanUnclassified(classify: Classifier, lines: seq<seq<Byte>>, lineNumber: nat, byteOffset: nat)
    requires Unclassified(classify, lines)
    ensures ScanDelimiters(classify, lines, lineNumber, byteOffset) == []
    decreases |lines|
  {
    if lines != [] {
      assert classify(lines[0]).None?;
      assert Unclassified(classify, lines[1..]) by {
        assert forall k | 0 <= k < |lines[1..]| :: lines[1..][k] == lines[k + 1];
      }
      ScanUnclassified(classify, lines[1..], lineNumber + 1, byteOffset + |lines[0]|);
    }
  }

  /** A marker line, unclassified lines, then the rest: one delimiter, then the rest shifted past them. */
  lemma {:induction false} ScanHead(classify: Classifier, head: seq<Byte>, t: SectionType, body: seq<seq<Byte>>,
                                    tail: seq<seq<Byte>>, lineNumber: nat, byteOffset: nat, nextLine: nat, nextOffset: nat)
    requires classify(head) == Some(t) && Unclassified(classify, body)
    requires nextLine == lineNumber + 1 + |body| && nextOffset == byteOffset + |head| + |Concat(body)|
    ensures ScanDelimiters(classify, [head] + body + tail, lineNumber, byteOffset)
            == [SectionDelimiter(t, lineNumber, byteOffset)] + ScanDelimiters(classify, tail, nextLine, nextOffset)
  {
    assert ([head] + body + tail)[0] == head;
    assert ([head] + body + tail)[1..] == body + tail;
    ScanDelimitersAppend(classify, body, tail, lineNumber + 1, byteOffset + |head|);
    ScanUnclassified(classify, body, lineNumber + 1, byteOffset + |head|);
  }

  /** The marker line and the payload's lines take up the block's bytes. */
  lemma {:induction false} BlockWidth(t: SectionType, p: seq<Byte>)
    ensures |MarkerLine(t)| + |Concat(Lines(p))| == |WithData(t, p)|
  {
    LinesConcat(p);
  }

  /** One step of `ScanEmitUnder`: the first block, then the rest from where it ends. */
  lemma {:induction false} ScanEmitStep(classify: Classifier, bs: seq<Block>, lineNumber: nat, byteOffset: nat)
    requires bs != [] && classify(MarkerLine(bs[0].sectionType)) == Some(bs[0].sectionType)
    requires PlainUnder(classify, bs[0].payload)
    requires ScanDelimiters(classify, Lines(Emit(bs[1..])), NextLine(bs[0], lineNumber), NextOffset(bs[0], byteOffset))
             == BlockDelimiters(bs[1..], NextLine(bs[0], lineNumber), NextOffset(bs[0], byteOffset))
    ensures ScanDelimiters(classify, Lines(Emit(bs)), lineNumber, byteOffset) == BlockDelimiters(bs, lineNumber, byteOffset)
  {
    BlockLines(bs[0].sectionType, bs[0].payload, Emit(bs[1..]));
    BlockWidth(bs[0].sectionType, bs[0].payload);
    ScanHead(classify, MarkerLine(bs[0].sectionType), bs[0].sectionType, Lines(bs[0].payload), Lines(Emit(bs[1..])),
             lineNumber, byteOffset, NextLine(bs[0], lineNumber), NextOffset(bs[0], byteOffset));
  }

  /** Scanning written blocks finds exactly one delimiter per block. */
  lemma {:induction false} ScanEmitUnder(classify: Classifier, bs: seq<Block>, lineNumber: nat, byteOffset: nat)
    requires ClassifiesMarkers(classify)
    requires forall i | 0 <= i < |bs| :: PlainUnder(classify, bs[i].payload)
    ensures ScanDelimiters(classify, Lines(Emit(bs)), lineNumber, byteOffset) == BlockDelimiters(bs, lineNumber, byteOffset)
    decreases |bs|
  {
    if bs != [] {
      assert PlainUnder(classify, bs[0].payload);
      assert forall i | 0 <= i < |bs[1..]| :: bs[1..][i] == bs[i + 1];
      ScanEmitUnder(classify, bs[1..], NextLine(bs[0], lineNumber), NextOffset(bs[0], byteOffset));
      ScanEmitStep(classify, bs, lineNumber, byteOffset);
    }
  }

  /** `get_section_delimiters` over written blocks finds exactly one delimiter per block. */
  lemma {:induction false} ScanEmit(bs: seq<Block>, lineNumber: nat, byteOffset: nat)
    requires AllPlain(bs)
    ensures ScanDelimiters(GetLineType, Lines(Emit(bs)), lineNumber, byteOffset) == BlockDelimiters(bs, lineNumber, byteOffset)
  {
    GetLineTypeClassifiesMarkers();
    ScanEmitUnder(GetLineType, bs, lineNumber, byteOffset);
  }

  // ---------------------------------------------------------------------
  // Cutting the written blocks apart again
  // ---------------------------------------------------------------------

  lemma {:induction false} EmitOne(b: Block)
    ensures Emit([b]) == WithData(b.sectionType, b.payload)
  {
    assert [b][1..] == [];
  }

  /** The written blocks around block `i`. */
  lemma {:induction false} EmitSplit(bs: seq<Block>, i: nat)
    requires i < |bs|
    ensures Emit(bs) == Emit(bs[..i]) + WithData(bs[i].sectionType, bs[i].payload) + Emit(bs[i + 1..])
    ensures |Emit(bs[..i + 1])| == |Emit(bs[..i])| + |WithData(bs[i].sectionType, bs[i].payload)|
  {
    assert bs == bs[..i] + [bs[i]] + bs[i + 1..];
    assert bs[..i + 1] == bs[..i] + [bs[i]];
    EmitAppend(bs[..i] + [bs[i]], bs[i + 1..]);
    EmitAppend(bs[..i], [bs[i]]);
    EmitOne(bs[i]);
  }

  /** Delimiter `i` of the written blocks: the block's type, at the byte where the block starts. */
  lemma {:induction false} BlockDelimiterAt(bs: seq<Block>, lineNumber: nat, byteOffset: nat, i: nat)
    requires i < |bs|
    ensures BlockDelimiters(bs, lineNumber, byteOffset)[i].sectionType == bs[i].sectionType
    ensures BlockDelimiters(bs, lineNumber, byteOffset)[i].byteOffset == byteOffset + |Emit(bs[..i])|
    decreases i
  {
    if i == 0 {
      assert bs[..0] == [];
    } else {
      var k := i - 1;
      var rest := BlockDelimiters(bs[1..], NextLine(bs[0], lineNumber), NextOffset(bs[0], byteOffset));
      BlockDelimiterAt(bs[1..], NextLine(bs[0], lineNumber), NextOffset(bs[0], byteOffset), k);
      assert BlockDelimiters(bs, lineNumber, byteOffset)[i] == rest[k];
      EmitPrefixStep(bs, i, k);
    }
  }

  /** The blocks before block `i` are the first block, then the `k = i - 1` blocks after it. */
  lemma {:induction false} EmitPrefixStep(bs: seq<Block>, i: nat, k: nat)
    requires 0 < i <= |bs| && k + 1 == i
    ensures Emit(bs[..i]) == WithData(bs[0].sectionType, bs[0].payload) + Emit(bs[1..][..k])
  {
    assert bs[..i][0] == bs[0] && bs[..i][1..] == bs[1..][..k];
  }

  /** `m + p` sits right after `a` in `a + m + p + b`. */
  lemma {:induction false} SliceBetween(a: seq<Byte>, m: seq<Byte>, p: seq<Byte>, b: seq<Byte>)
    ensures (a + m + p + b)[|a| + |m|..|a| + |m| + |p|] == p
  {
  }

  /** The range `get_sections` cuts for block `i` is its payload. */
  lemma {:induction false} BlockRange(bs: seq<Block>, lineNumber: nat, i: nat)
    requires i < |bs|
    ensures DataStart(BlockDelimiters(bs, lineNumber, 0)[i]) == |Emit(bs[..i])| + |MarkerLine(bs[i].sectionType)|
    ensures DataEnd(Emit(bs), BlockDelimiters(bs, lineNumber, 0), i)
            == |Emit(bs[..i])| + |MarkerLine(bs[i].sectionType)| + |bs[i].payload|
    ensures |Emit(bs[..i])| + |MarkerLine(bs[i].sectionType)| + |bs[i].payload| <= |Emit(bs)|
  {
    BlockDelimiterAt(bs, lineNumber, 0, i);
    EmitSplit(bs, i);
    if i + 1 < |bs| {
      BlockDelimiterAt(bs, lineNumber, 0, i + 1);
    } else {
      assert bs[i + 1..] == [];
    }
  }

  /** Every range `get_sections` would cut from the written blocks is valid. */
  lemma {:induction false} BlockRangesValid(bs: seq<Block>, lineNumber: nat)
    ensures RangesValid(Emit(bs), BlockDelimiters(bs, lineNumber, 0))
  {
    forall i | 0 <= i < |bs|
      ensures DataStart(BlockDelimiters(bs, lineNumber, 0)[i]) <= DataEnd(Emit(bs), BlockDelimiters(bs, lineNumber, 0), i) <= |Emit(bs)|
    {
      BlockRange(bs, lineNumber, i);
    }
  }

  /** The bytes between block `i`'s marker line and the next block are its payload. */
  lemma {:induction false} BlockSlice(bs: seq<Block>, lineNumber: nat, i: nat)
    requires i < |bs|
    ensures DataStart(BlockDelimiters(bs, lineNumber, 0)[i]) <= DataEnd(Emit(bs), BlockDelimiters(bs, lineNumber, 0), i) <= |Emit(bs)|
    ensures Emit(bs)[DataStart(BlockDelimiters(bs, lineNumber, 0)[i])..DataEnd(Emit(bs), BlockDelimiters(bs, lineNumber, 0), i)]
            == bs[i].payload
  {
    var a, m, p, b := Emit(bs[..i]), MarkerLine(bs[i].sectionType), bs[i].payload, Emit(bs[i + 1..]);
    BlockRange(bs, lineNumber, i);
    EmitSplit(bs, i);
    SplitMiddle(a, WithData(bs[i].sectionType, p), m, p, b);
    SliceBetween(a, m, p, b);
  }

  lemma {:induction false} SplitMiddle<T>(a: seq<T>, w: seq<T>, m: seq<T>, p: seq<T>, b: seq<T>)
    requires w == m + p
    ensures a + w + b == a + m + p + b
  {
  }

  /** A cut whose range holds `p` is a section of the delimiter's type holding `p`. */
  lemma {:induction false} CutHolds(src: seq<Byte>, ds: seq<SectionDelimiter>, i: nat, p: seq<Byte>)
    requires i < |ds| && RangesValid(src, ds)
    requires src[DataStart(ds[i])..DataEnd(src, ds, i)] == p
    ensures GetType(ExpectedCut(src, ds, i)) == ds[i].sectionType
    ensures ExpectedCut(src, ds, i).sectionData == Borrowed(p)
  {
  }

  /** The section cut for block `i` holds its type and its payload. */
  lemma {:induction false} BlockCut(bs: seq<Block>, lineNumber: nat, i: nat)
    requires i < |bs| && RangesValid(Emit(bs), BlockDelimiters(bs, lineNumber, 0))
    ensures GetType(ExpectedCut(Emit(bs), BlockDelimiters(bs, lineNumber, 0), i)) == bs[i].sectionType
    ensures ExpectedCut(Emit(bs), BlockDelimiters(bs, lineNumber, 0), i).sectionData == Borrowed(bs[i].payload)
  {
    BlockSlice(bs, lineNumber, i);
    BlockDelimiterAt(bs, lineNumber, 0, i);
    CutHolds(Emit(bs), BlockDelimiters(bs, lineNumber, 0), i, bs[i].payload);
  }

  /** The written blocks are sliced back into one section per block, last block first. */
  lemma {:induction false} CartSectionsOfEmit(bs: seq<Block>)
    requires AllPlain(bs)
    ensures RangesValid(Emit(bs), BlockDelimiters(bs, 3, 0))
    ensures CartSections(Emit(bs)) == Reverse(ExpectedCuts(Emit(bs), BlockDelimiters(bs, 3, 0), |bs|))
  {
    ScanEmit(bs, 3, 0);
    assert SectionDelimiters(Emit(bs), Some(2)) == BlockDelimiters(bs, 3, 0);
    SectionDelimitersOrdered(Emit(bs), Some(2));
    SortByLineSorted(BlockDelimiters(bs, 3, 0));
    BlockRangesValid(bs, 3);
    CutRevValid(Emit(bs), BlockDelimiters(bs, 3, 0));
  }

  /** The block a section mirrors: sections come back last block first. */
  function MirrorIndex(bs: seq<Block>, j: nat): nat
    requires j < |bs|
  {
    |bs| - 1 - j
  }

  /** `ss` holds the blocks' types and payloads in reverse order. */
  predicate Mirrors(ss: seq<Section>, bs: seq<Block>)
  {
    |ss| == |bs|
    && forall j | 0 <= j < |ss| ::
         GetType(ss[j]) == bs[MirrorIndex(bs, j)].sectionType && ss[j].sectionData == Borrowed(bs[MirrorIndex(bs, j)].payload)
  }

  /** Section `j` of the sliced blocks is block `|bs| - 1 - j`. */
  lemma {:induction false} SectionOfEmitAt(bs: seq<Block>, j: nat)
    requires AllPlain(bs) && j < |bs|
    ensures |CartSections(Emit(bs))| == |bs|
    ensures GetType(CartSections(Emit(bs))[j]) == bs[MirrorIndex(bs, j)].sectionType
    ensures CartSections(Emit(bs))[j].sectionData == Borrowed(bs[MirrorIndex(bs, j)].payload)
  {
    CartSectionsOfEmit(bs);
    ReverseAt(ExpectedCuts(Emit(bs), BlockDelimiters(bs, 3, 0), |bs|), j, MirrorIndex(bs, j));
    BlockCut(bs, 3, MirrorIndex(bs, j));
  }

  lemma {:induction false} ReverseAt<T>(s: seq<T>, j: nat, k: nat)
    requires j < |s| && k == |s| - 1 - j
    ensures |Reverse(s)| == |s| && Reverse(s)[j] == s[k]
  {
  }

  /** `get_sections` over the written blocks gives each block back, last block first. */
  lemma {:induction false} SectionsOfEmit(bs: seq<Block>)
    requires AllPlain(bs)
    ensures Mirrors(CartSections(Emit(bs)), bs)
  {
    CartSectionsOfEmit(bs);
    forall j | 0 <= j < |bs|
      ensures GetType(CartSections(Emit(bs))[j]) == bs[MirrorIndex(bs, j)].sectionType
      ensures CartSections(Emit(bs))[j].sectionData == Borrowed(bs[MirrorIndex(bs, j)].payload)
    {
      SectionOfEmitAt(bs, j);
    }
  }

  // ---------------------------------------------------------------------
  // Which section wins
  // ---------------------------------------------------------------------

  /** The payload of the first block of type `t`, if any. */
  function FirstPayload(bs: seq<Block>, t: SectionType): Option<seq<Byte>>
  {
    if bs == [] then None
    else if bs[0].sectionType == t then Some(bs[0].payload)
    else FirstPayload(bs[1..], t)
  }

  function PayloadOf(s: Option<Section>): Option<seq<Byte>>
  {
    match s
    case None => None
    case Some(x) => Some(x.sectionData.bytes)
  }

  lemma {:induction false} MirrorsInit(ss: seq<Section>, bs: seq<Block>)
    requires Mirrors(ss, bs) && bs != []
    ensures Mirrors(ss[..|ss| - 1], bs[1..])
    ensures GetType(ss[|ss| - 1]) == bs[0].sectionType && ss[|ss| - 1].sectionData == Borrowed(bs[0].payload)
  {
    assert MirrorIndex(bs, |ss| - 1) == 0;
    forall j | 0 <= j < |ss| - 1
      ensures ss[..|ss| - 1][j] == ss[j] && bs[1..][MirrorIndex(bs[1..], j)] == bs[MirrorIndex(bs, j)]
    {
    }
  }

  /**
   * The fold keeps the last section of each type; sliced from written
   * blocks, that is the first block of the type.
   */
  lemma {:induction false} MirrorsLastOfType(ss: seq<Section>, bs: seq<Block>, t: SectionType)
    requires Mirrors(ss, bs)
    ensures PayloadOf(LastOfType(ss, t)) == FirstPayload(bs, t)
    decreases |bs|
  {
    if bs != [] {
      MirrorsInit(ss, bs);
      if bs[0].sectionType != t {
        MirrorsLastOfType(ss[..|ss| - 1], bs[1..], t);
      }
    }
  }

  /** Sliced from written blocks, a Lua section is borrowed and splits into tabs if its block's payload does. */
  lemma {:induction false} MirrorsLuaOk(ss: seq<Section>, bs: seq<Block>)
    requires Mirrors(ss, bs)
    requires forall i | 0 <= i < |bs| :: bs[i].sectionType == Lua ==> TabsFit(bs[i].payload)
    ensures AllLuaSectionsOk(ss)
  {
    forall j | 0 <= j < |ss|
      ensures LuaSectionOk(ss[j])
    {
      assert GetType(ss[j]) == bs[MirrorIndex(bs, j)].sectionType;
    }
  }

  // ---------------------------------------------------------------------
  // Code tabs
  // ---------------------------------------------------------------------

  /** A tab that reads back as itself: newline-terminated, without `-->8`, without marker lines. */
  predicate TabOk(tab: Tab)
  {
    EndsInNewline(tab.codeData.bytes) && !Contains(tab.codeData.bytes, TAB_SEQUENCE) && PlainPayload(tab.codeData.bytes)
  }

  /** The occupied slots come first, and each occupied one reads back as itself. */
  predicate TabsOk(slots: seq<Option<Tab>>)
  {
    (forall i, j | 0 <= i < j < |slots| :: slots[j].Some? ==> slots[i].Some?)
    && forall i | 0 <= i < |slots| :: slots[i].Some? ==> TabOk(slots[i].value)
  }

  /** The code of the occupied slots before the first empty one. */
  function Codes(slots: seq<Option<Tab>>): (r: seq<seq<Byte>>)
    ensures |r| <= |slots|
    ensures forall i | 0 <= i < |r| :: slots[i].Some? && r[i] == slots[i].value.codeData.bytes
    ensures |r| < |slots| ==> slots[|r|].None?
  {
    if slots == [] || slots[0].None? then []
    else
      var rest := Codes(slots[1..]);
      assert forall i | 1 <= i <= |rest| :: slots[1..][i - 1] == slots[i];
      [slots[0].value.codeData.bytes] + rest
  }

  lemma {:induction false} TabsOkTail(slots: seq<Option<Tab>>)
    requires TabsOk(slots) && slots != []
    ensures TabsOk(slots[1..])
  {
    assert forall i | 0 <= i < |slots[1..]| :: slots[1..][i] == slots[i + 1];
  }

  /** Empty slots contribute nothing. */
  lemma {:induction false} JoinSlotsNone(slots: seq<Option<Tab>>, i: nat)
    requires forall k | 0 <= k < |slots| :: slots[k].None?
    ensures JoinSlots(slots, i) == []
    decreases |slots|
  {
    if slots != [] {
      assert forall k | 0 <= k < |slots[1..]| :: slots[1..][k] == slots[k + 1];
      JoinSlotsNone(slots[1..], i + 1);
    }
  }

  lemma {:induction false} JoinTabsCons(c: seq<Byte>, rest: seq<seq<Byte>>)
    ensures JoinTabs([c] + rest) == if rest == [] then c else c + TAB_SEPARATOR_LINE + JoinTabs(rest)
  {
    assert ([c] + rest)[0] == c && ([c] + rest)[1..] == rest;
  }

  /** Slots after the first: each occupied one is written after a `-->8` line. */
  lemma {:induction false} JoinSlotsFrom(slots: seq<Option<Tab>>, i: nat)
    requires i >= 1 && TabsOk(slots)
    ensures JoinSlots(slots, i) == if Codes(slots) == [] then [] else TAB_SEPARATOR_LINE + JoinTabs(Codes(slots))
    decreases |slots|
  {
    if slots != [] {
      if slots[0].None? {
        JoinSlotsNone(slots, i);
      } else {
        TabsOkTail(slots);
        var j := i + 1;
        JoinSlotsFrom(slots[1..], j);
        JoinSlotsStep(slots, i, j);
      }
    }
  }

  /** One step of `JoinSlotsFrom`: an occupied slot, then the rest. */
  lemma {:induction false} JoinSlotsStep(slots: seq<Option<Tab>>, i: nat, j: nat)
    requires i >= 1 && j == i + 1 && slots != [] && slots[0].Some?
    requires JoinSlots(slots[1..], j)
             == if Codes(slots[1..]) == [] then [] else TAB_SEPARATOR_LINE + JoinTabs(Codes(slots[1..]))
    ensures JoinSlots(slots, i) == if Codes(slots) == [] then [] else TAB_SEPARATOR_LINE + JoinTabs(Codes(slots))
  {
    var c, rest := slots[0].value.codeData.bytes, Codes(slots[1..]);
    JoinTabsCons(c, rest);
    assert JoinSlots(slots, i) == TAB_SEPARATOR_LINE + c + JoinSlots(slots[1..], j);
    assert Codes(slots) == [c] + rest;
    if rest != [] {
      SepAssoc(c, rest);
    }
  }

  lemma {:induction false} SepAssoc(c: seq<Byte>, rest: seq<seq<Byte>>)
    requires rest != []
    ensures TAB_SEPARATOR_LINE + c + (TAB_SEPARATOR_LINE + JoinTabs(rest)) == TAB_SEPARATOR_LINE + (c + TAB_SEPARATOR_LINE + JoinTabs(rest))
  {
  }

  /** The Lua code `into_cart_source` writes is the occupied tabs joined by `-->8` lines. */
  lemma {:induction false} JoinSlotsAll(slots: seq<Option<Tab>>)
    requires TabsOk(slots)
    ensures JoinSlots(slots, 0) == if Codes(slots) == [] then [] else JoinTabs(Codes(slots))
  {
    if slots != [] {
      if slots[0].None? {
        JoinSlotsNone(slots, 0);
      } else {
        TabsOkTail(slots);
        JoinSlotsFrom(slots[1..], 1);
        JoinTabsCons(slots[0].value.codeData.bytes, Codes(slots[1..]));
      }
    }
  }

  lemma {:induction false} UnclassifiedAppend(classify: Classifier, l1: seq<seq<Byte>>, l2: seq<seq<Byte>>)
    requires Unclassified(classify, l1) && Unclassified(classify, l2)
    ensures Unclassified(classify, l1 + l2)
  {
    forall k | 0 <= k < |l1 + l2|
      ensures classify((l1 + l2)[k]).None?
    {
      if k >= |l1| {
        assert (l1 + l2)[k] == l2[k - |l1|];
      }
    }
  }

  /** Two payloads that read back as themselves, one after the other, still do. */
  lemma {:induction false} PlainUnderAppend(classify: Classifier, a: seq<Byte>, b: seq<Byte>)
    requires PlainUnder(classify, a) && PlainUnder(classify, b)
    ensures PlainUnder(classify, a + b)
  {
    LinesAppend(a, b);
    UnclassifiedAppend(classify, Lines(a), Lines(b));
    if b == [] {
      assert a + b == a;
    } else {
      assert (a + b)[|a + b| - 1] == b[|b| - 1];
    }
  }

  /** The `-->8` line between two tabs is no marker line. */
  lemma {:induction false} SeparatorPlain()
    ensures PlainPayload(TAB_SEPARATOR_LINE)
  {
    assert TAB_SEPARATOR_LINE[0] == 0x2D;
    assert TAB_SEPARATOR_LINE[..|TAB_SEPARATOR_LINE| - 1] == TAB_SEQUENCE;
    LinesOfLine(TAB_SEPARATOR_LINE, []);
    GetLineTypeNone(TAB_SEPARATOR_LINE);
  }

  /** Tabs joined by `-->8` lines read back as themselves. */
  lemma {:induction false} JoinTabsPlain(ds: seq<seq<Byte>>)
    requires |ds| >= 1 && forall k | 0 <= k < |ds| :: PlainPayload(ds[k])
    ensures PlainPayload(JoinTabs(ds))
    decreases |ds|
  {
    if |ds| > 1 {
      assert forall k | 0 <= k < |ds[1..]| :: ds[1..][k] == ds[k + 1];
      JoinTabsPlain(ds[1..]);
      SeparatorPlain();
      PlainUnderAppend(GetLineType, ds[0], TAB_SEPARATOR_LINE);
      PlainUnderAppend(GetLineType, ds[0] + TAB_SEPARATOR_LINE, JoinTabs(ds[1..]));
    }
  }

  /** The bytes of a slot, if occupied. */
  function TabBytes(slot: Option<Tab>): Option<seq<Byte>>
  {
    match slot
    case None => None
    case Some(tab) => Some(tab.codeData.bytes)
  }

  /**
   * The Lua section `into_cart_source` writes, when the joined tab code is
   * non-empty (under `TabsOk`, when any tab is occupied).
   */
  function LuaPayload(tabs: CodeTabs): Option<seq<Byte>>
  {
    if JoinSlots(tabs, 0) == [] then None else Some(JoinSlots(tabs, 0))
  }

  lemma {:induction false} JoinTabsNonEmpty(ds: seq<seq<Byte>>)
    requires |ds| >= 1 && ds[0] != []
    ensures JoinTabs(ds) != []
  {
    if |ds| > 1 {
      assert JoinTabs(ds)[0] == ds[0][0];
    }
  }

  /** The occupied tabs' code meets what `TabSpansOfJoin` and `JoinTabsPlain` ask of it. */
  lemma {:induction false} CodesOk(tabs: seq<Option<Tab>>)
    requires TabsOk(tabs)
    ensures forall k | 0 <= k < |Codes(tabs)| ::
              EndsInNewline(Codes(tabs)[k]) && !Contains(Codes(tabs)[k], TAB_SEQUENCE) && PlainPayload(Codes(tabs)[k])
  {
    forall k | 0 <= k < |Codes(tabs)|
      ensures EndsInNewline(Codes(tabs)[k]) && !Contains(Codes(tabs)[k], TAB_SEQUENCE) && PlainPayload(Codes(tabs)[k])
    {
      assert TabOk(tabs[k].value);
    }
  }

  /** The Lua code of occupied tabs reads back as itself and splits back into the tabs. */
  lemma {:induction false} LuaPayloadOk(tabs: CodeTabs)
    requires TabsOk(tabs) && Codes(tabs) != []
    ensures LuaPayload(tabs) == Some(JoinTabs(Codes(tabs)))
    ensures PlainPayload(JoinTabs(Codes(tabs))) && TabsFit(JoinTabs(Codes(tabs)))
    ensures TabSpans(JoinTabs(Codes(tabs))) == Codes(tabs)
  {
    JoinSlotsAll(tabs);
    CodesOk(tabs);
    JoinTabsNonEmpty(Codes(tabs));
    TabSpansOfJoin(Codes(tabs));
    JoinTabsPlain(Codes(tabs));
  }

  /** One slot of `get_code_tabs_from_lua_section` on code that splits back into the tabs. */
  lemma {:induction false} CodeTabSlot(tabs: CodeTabs, lineNumber: nat, data: seq<Byte>, i: nat)
    requires TabsOk(tabs) && TabsFit(data) && TabSpans(data) == Codes(tabs)
    requires i < MAX_CODE_EDITOR_TAB_COUNT
    ensures TabBytes(CodeTabsOf(lineNumber, data)[i]) == TabBytes(tabs[i])
  {
    var r := CodeTabsOf(lineNumber, data);
    var codes := Codes(tabs);
    if i < |codes| {
      assert r[i] == Some(Tab(TabStart(lineNumber, codes, i), Borrowed(codes[i])));
    } else {
      assert r[i].None?;
      assert tabs[|codes|].None?;
    }
  }

  /** `get_code_tabs_from_lua_section` on that code fills every slot with the bytes it had. */
  lemma {:induction false} CodeTabsOfJoin(tabs: CodeTabs, lineNumber: nat, data: seq<Byte>)
    requires TabsOk(tabs) && TabsFit(data) && TabSpans(data) == Codes(tabs)
    ensures forall i | 0 <= i < MAX_CODE_EDITOR_TAB_COUNT ::
              TabBytes(CodeTabsOf(lineNumber, data)[i]) == TabBytes(tabs[i])
  {
    forall i | 0 <= i < MAX_CODE_EDITOR_TAB_COUNT
      ensures TabBytes(CodeTabsOf(lineNumber, data)[i]) == TabBytes(tabs[i])
    {
      CodeTabSlot(tabs, lineNumber, data, i);
    }
  }

  /**
   * Tabs that read back as themselves: their Lua section is written when
   * any is occupied, reads back as itself, splits without panicking into
   * at most 16 tabs, and `get_code_tabs_from_lua_section` fills every slot
   * with the bytes it had.
   */
  lemma {:induction false} TabsRoundTrip(tabs: CodeTabs, lineNumber: nat)
    requires TabsOk(tabs)
    ensures LuaPayload(tabs).None? <==> forall i | 0 <= i < MAX_CODE_EDITOR_TAB_COUNT :: tabs[i].None?
    ensures LuaPayload(tabs).Some? ==> PlainPayload(LuaPayload(tabs).value) && TabsFit(LuaPayload(tabs).value)
    ensures LuaPayload(tabs).Some? ==>
              forall i | 0 <= i < MAX_CODE_EDITOR_TAB_COUNT ::
                TabBytes(CodeTabsOf(lineNumber, LuaPayload(tabs).value)[i]) == TabBytes(tabs[i])
  {
    if Codes(tabs) == [] {
      JoinSlotsAll(tabs);
      assert tabs[0].None?;
    } else {
      LuaPayloadOk(tabs);
      CodeTabsOfJoin(tabs, lineNumber, JoinTabs(Codes(tabs)));
      assert tabs[0].Some?;
    }
  }

  // ---------------------------------------------------------------------
  // The cartridge as blocks
  // ---------------------------------------------------------------------

  /** A block for a present payload, none for an absent one. */
  function OptBlock(t: SectionType, p: Option<seq<Byte>>): seq<Block>
  {
    match p
    case None => []
    case Some(data) => [Block(t, data)]
  }

  /** What `into_cart_source` writes for an optional section. */
  function EmitOpt(t: SectionType, p: Option<seq<Byte>>): seq<Byte>
  {
    match p
    case None => []
    case Some(data) => WithData(t, data)
  }

  function AssetBytes(a: Option<Asset>): Option<seq<Byte>>
  {
    match a
    case None => None
    case Some(x) => Some(x.assetData.bytes)
  }

  function LabelBytes(l: Option<CartLabel>): Option<seq<Byte>>
  {
    match l
    case None => None
    case Some(x) => Some(x.labelData.bytes)
  }

  /** Every Lua block splits into tabs without panicking. */
  predicate LuaFits(bs: seq<Block>)
  {
    forall i | 0 <= i < |bs| :: bs[i].sectionType == Lua ==> TabsFit(bs[i].payload)
  }

  predicate OptPlain(p: Option<seq<Byte>>)
  {
    p.Some? ==> PlainPayload(p.value)
  }

  /** The blocks `into_cart_source` writes after the header, in its order. */
  function CartBlocks(c: CartData): seq<Block>
  {
    OptBlock(Lua, LuaPayload(c.codeTabs))
    + (OptBlock(Gfx, Some(c.gfx.assetData.bytes))
    + (OptBlock(Label, LabelBytes(c.cartLabel))
    + TailBlocks(c)))
  }

  /** The payload `into_cart_source` writes for section type `t`, if any. */
  function CartPayload(c: CartData, t: SectionType): Option<seq<Byte>>
  {
    match t
    case Lua => LuaPayload(c.codeTabs)
    case Gfx => Some(c.gfx.assetData.bytes)
    case Label => LabelBytes(c.cartLabel)
    case Gff => AssetBytes(c.gff)
    case Map => AssetBytes(c.tileMap)
    case Sfx => AssetBytes(c.sfx)
    case Music => AssetBytes(c.music)
  }

  lemma {:induction false} OptConsEmit(t: SectionType, p: Option<seq<Byte>>, rest: seq<Block>)
    ensures Emit(OptBlock(t, p) + rest) == EmitOpt(t, p) + Emit(rest)
  {
    if p.None? {
      assert OptBlock(t, p) + rest == rest;
    } else {
      EmitAppend(OptBlock(t, p), rest);
      EmitOne(Block(t, p.value));
    }
  }

  lemma {:induction false} OptConsFirst(t: SectionType, p: Option<seq<Byte>>, rest: seq<Block>, u: SectionType)
    ensures FirstPayload(OptBlock(t, p) + rest, u) == if p.Some? && t == u then p else FirstPayload(rest, u)
  {
    if p.None? {
      assert OptBlock(t, p) + rest == rest;
    } else {
      var bs := OptBlock(t, p) + rest;
      assert bs[0] == Block(t, p.value) && bs[1..] == rest;
    }
  }

  lemma {:induction false} OptConsKeeps(t: SectionType, p: Option<seq<Byte>>, rest: seq<Block>)
    ensures OptPlain(p) && AllPlain(rest) ==> AllPlain(OptBlock(t, p) + rest)
    ensures (t == Lua && p.Some? ==> TabsFit(p.value)) && LuaFits(rest) ==> LuaFits(OptBlock(t, p) + rest)
  {
    if p.None? {
      assert OptBlock(t, p) + rest == rest;
    } else {
      var bs := OptBlock(t, p) + rest;
      assert bs[0] == Block(t, p.value);
      assert forall i | 1 <= i < |bs| :: bs[i] == rest[i - 1];
    }
  }

  /** The optional sections `into_cart_source` writes are optional blocks. */
  lemma {:induction false} OptionalBlocks(c: CartData)
    ensures LuaBlock(c.codeTabs) == EmitOpt(Lua, LuaPayload(c.codeTabs))
    ensures WithData(Gfx, c.gfx.assetData.bytes) == EmitOpt(Gfx, Some(c.gfx.assetData.bytes))
    ensures LabelBlock(c.cartLabel) == EmitOpt(Label, LabelBytes(c.cartLabel))
    ensures OptionalBlock(Gff, c.gff) == EmitOpt(Gff, AssetBytes(c.gff))
    ensures OptionalBlock(Map, c.tileMap) == EmitOpt(Map, AssetBytes(c.tileMap))
    ensures OptionalBlock(Sfx, c.sfx) == EmitOpt(Sfx, AssetBytes(c.sfx))
    ensures OptionalBlock(Music, c.music) == EmitOpt(Music, AssetBytes(c.music))
  {
  }

  lemma {:induction false} Reassociate<T>(h: seq<T>, a: seq<T>, b: seq<T>, c: seq<T>, d: seq<T>, e: seq<T>, f: seq<T>, g: seq<T>)
    ensures h + a + b + c + d + e + f + g == h + (a + (b + (c + (d + (e + (f + g))))))
  {
  }

  /** The blocks after the label: Gff, map, Sfx, music. */
  function TailBlocks(c: CartData): seq<Block>
  {
    OptBlock(Gff, AssetBytes(c.gff))
    + (OptBlock(Map, AssetBytes(c.tileMap))
    + (OptBlock(Sfx, AssetBytes(c.sfx))
    + OptBlock(Music, AssetBytes(c.music))))
  }

  lemma {:induction false} OptEmit(t: SectionType, p: Option<seq<Byte>>)
    ensures Emit(OptBlock(t, p)) == EmitOpt(t, p)
  {
    if p.Some? {
      EmitOne(Block(t, p.value));
    }
  }

  lemma {:induction false} TailBlocksEmit(c: CartData)
    ensures Emit(TailBlocks(c))
            == EmitOpt(Gff, AssetBytes(c.gff)) + (EmitOpt(Map, AssetBytes(c.tileMap))
               + (EmitOpt(Sfx, AssetBytes(c.sfx)) + EmitOpt(Music, AssetBytes(c.music))))
  {
    var b6 := OptBlock(Music, AssetBytes(c.music));
    var b5 := OptBlock(Sfx, AssetBytes(c.sfx)) + b6;
    var b4 := OptBlock(Map, AssetBytes(c.tileMap)) + b5;
    OptEmit(Music, AssetBytes(c.music));
    OptConsEmit(Sfx, AssetBytes(c.sfx), b6);
    OptConsEmit(Map, AssetBytes(c.tileMap), b5);
    OptConsEmit(Gff, AssetBytes(c.gff), b4);
  }

  lemma {:induction false} CartBlocksEmit(c: CartData)
    ensures CartBlocks(c) == OptBlock(Lua, LuaPayload(c.codeTabs)) + (OptBlock(Gfx, Some(c.gfx.assetData.bytes))
                             + (OptBlock(Label, LabelBytes(c.cartLabel)) + TailBlocks(c)))
    ensures Emit(CartBlocks(c))
            == EmitOpt(Lua, LuaPayload(c.codeTabs)) + (EmitOpt(Gfx, Some(c.gfx.assetData.bytes))
               + (EmitOpt(Label, LabelBytes(c.cartLabel)) + Emit(TailBlocks(c))))
  {
    var b2 := OptBlock(Label, LabelBytes(c.cartLabel)) + TailBlocks(c);
    var b1 := OptBlock(Gfx, Some(c.gfx.assetData.bytes)) + b2;
    OptConsEmit(Label, LabelBytes(c.cartLabel), TailBlocks(c));
    OptConsEmit(Gfx, Some(c.gfx.assetData.bytes), b2);
    OptConsEmit(Lua, LuaPayload(c.codeTabs), b1);
  }

  /** `into_cart_source` writes the header, then the blocks. */
  lemma {:induction false} IntoCartSourceLayout(c: CartData)
    ensures IntoCartSource(c) == c.header.bytes + Emit(CartBlocks(c))
  {
    var h := c.header.bytes;
    assert Header.CopyToBoxedSlice(h) == h;
    CartBlocksEmit(c);
    TailBlocksEmit(c);
    OptionalBlocks(c);
    Reassociate(h, LuaBlock(c.codeTabs), WithData(Gfx, c.gfx.assetData.bytes), LabelBlock(c.cartLabel),
                OptionalBlock(Gff, c.gff), OptionalBlock(Map, c.tileMap), OptionalBlock(Sfx, c.sfx),
                OptionalBlock(Music, c.music));
  }

  lemma {:induction false} TailBlocksFirst(c: CartData, u: SectionType)
    requires u != Lua && u != Gfx && u != Label
    ensures FirstPayload(TailBlocks(c), u) == CartPayload(c, u)
  {
    var b6 := OptBlock(Music, AssetBytes(c.music));
    var b5 := OptBlock(Sfx, AssetBytes(c.sfx)) + b6;
    var b4 := OptBlock(Map, AssetBytes(c.tileMap)) + b5;
    OptConsFirst(Music, AssetBytes(c.music), [], u);
    assert b6 + [] == b6;
    OptConsFirst(Sfx, AssetBytes(c.sfx), b6, u);
    OptConsFirst(Map, AssetBytes(c.tileMap), b5, u);
    OptConsFirst(Gff, AssetBytes(c.gff), b4, u);
  }

  lemma {:induction false} TailBlocksNone(c: CartData, u: SectionType)
    requires u == Lua || u == Gfx || u == Label
    ensures FirstPayload(TailBlocks(c), u) == None
  {
    var b6 := OptBlock(Music, AssetBytes(c.music));
    var b5 := OptBlock(Sfx, AssetBytes(c.sfx)) + b6;
    var b4 := OptBlock(Map, AssetBytes(c.tileMap)) + b5;
    OptConsFirst(Music, AssetBytes(c.music), [], u);
    assert b6 + [] == b6;
    OptConsFirst(Sfx, AssetBytes(c.sfx), b6, u);
    OptConsFirst(Map, AssetBytes(c.tileMap), b5, u);
    OptConsFirst(Gff, AssetBytes(c.gff), b4, u);
  }

  /** Each section type occurs in the written blocks at most once, with the cartridge's own payload. */
  lemma {:induction false} CartBlocksFirst(c: CartData, u: SectionType)
    ensures FirstPayload(CartBlocks(c), u) == CartPayload(c, u)
  {
    CartBlocksEmit(c);
    var b2 := OptBlock(Label, LabelBytes(c.cartLabel)) + TailBlocks(c);
    var b1 := OptBlock(Gfx, Some(c.gfx.assetData.bytes)) + b2;
    if u == Lua || u == Gfx || u == Label {
      TailBlocksNone(c, u);
    } else {
      TailBlocksFirst(c, u);
    }
    OptConsFirst(Label, LabelBytes(c.cartLabel), TailBlocks(c), u);
    OptConsFirst(Gfx, Some(c.gfx.assetData.bytes), b2, u);
    OptConsFirst(Lua, LuaPayload(c.codeTabs), b1, u);
  }

  /** Every payload a cartridge holds reads back as itself. */
  predicate PayloadsPlain(c: CartData)
  {
    OptPlain(LuaPayload(c.codeTabs)) && PlainPayload(c.gfx.assetData.bytes) && OptPlain(LabelBytes(c.cartLabel))
    && OptPlain(AssetBytes(c.gff)) && OptPlain(AssetBytes(c.tileMap))
    && OptPlain(AssetBytes(c.sfx)) && OptPlain(AssetBytes(c.music))
  }

  lemma {:induction false} TailBlocksKeep(c: CartData)
    requires PayloadsPlain(c)
    ensures AllPlain(TailBlocks(c)) && LuaFits(TailBlocks(c))
  {
    var b6 := OptBlock(Music, AssetBytes(c.music));
    var b5 := OptBlock(Sfx, AssetBytes(c.sfx)) + b6;
    var b4 := OptBlock(Map, AssetBytes(c.tileMap)) + b5;
    OptConsKeeps(Music, AssetBytes(c.music), []);
    assert b6 + [] == b6;
    OptConsKeeps(Sfx, AssetBytes(c.sfx), b6);
    OptConsKeeps(Map, AssetBytes(c.tileMap), b5);
    OptConsKeeps(Gff, AssetBytes(c.gff), b4);
  }

  /** The written blocks read back as themselves, and the Lua block splits into tabs. */
  lemma {:induction false} CartBlocksKeep(c: CartData)
    requires PayloadsPlain(c)
    requires LuaPayload(c.codeTabs).Some? ==> TabsFit(LuaPayload(c.codeTabs).value)
    ensures AllPlain(CartBlocks(c)) && LuaFits(CartBlocks(c))
  {
    CartBlocksEmit(c);
    TailBlocksKeep(c);
    var b2 := OptBlock(Label, LabelBytes(c.cartLabel)) + TailBlocks(c);
    var b1 := OptBlock(Gfx, Some(c.gfx.assetData.bytes)) + b2;
    OptConsKeeps(Label, LabelBytes(c.cartLabel), TailBlocks(c));
    OptConsKeeps(Gfx, Some(c.gfx.assetData.bytes), b2);
    OptConsKeeps(Lua, LuaPayload(c.codeTabs), b1);
  }

  // ---------------------------------------------------------------------
  // The header
  // ---------------------------------------------------------------------

  /** A header `split_from` cuts back off: the signature line, then a terminated UTF-8 version line. */
  predicate HeaderOk(h: seq<Byte>)
  {
    Header.CARTRIDGE_MARKER <= h
    && var version := h[|Header.CARTRIDGE_MARKER|..];
       IsLine(version) && EndsInNewline(version) && Text.ValidUtf8(version)
  }

  /** `split_from` cuts a written header back off whatever follows it. */
  lemma {:induction false} HeaderRoundTrip(h: seq<Byte>, body: seq<Byte>)
    requires HeaderOk(h)
    ensures Header.StartsWithSignature(h + body)
    ensures Header.HeaderSplit(h + body) == Some((h, body))
  {
    var src := h + body;
    var m := Header.CARTRIDGE_MARKER;
    var version := h[|m|..];
    assert h == m + version;
    assert src == m + (version + body);
    assert src[|m|..] == version + body;
    SplitLnOfLine(version, body);
    Header.HeaderSplitOfLine(src, version + body, version, body);
  }

  // ---------------------------------------------------------------------
  // The round trip
  // ---------------------------------------------------------------------

  /**
   * A cartridge `into_cart_source` writes so that `from_cart_source` reads
   * it back: a header `split_from` recognises, tabs that read back as
   * themselves, and payloads without marker lines that end in a newline.
   */
  predicate WellFormed(c: CartData)
  {
    HeaderOk(c.header.bytes) && TabsOk(c.codeTabs)
    && PlainPayload(c.gfx.assetData.bytes) && OptPlain(LabelBytes(c.cartLabel))
    && OptPlain(AssetBytes(c.gff)) && OptPlain(AssetBytes(c.tileMap))
    && OptPlain(AssetBytes(c.sfx)) && OptPlain(AssetBytes(c.music))
  }

  /** `r` holds the same bytes as `c` in every slot; line numbers are not compared. */
  predicate SameBytes(r: CartData, c: CartData)
  {
    r.header.bytes == c.header.bytes
    && r.gfx.assetData.bytes == c.gfx.assetData.bytes
    && LabelBytes(r.cartLabel) == LabelBytes(c.cartLabel)
    && AssetBytes(r.gff) == AssetBytes(c.gff) && AssetBytes(r.tileMap) == AssetBytes(c.tileMap)
    && AssetBytes(r.sfx) == AssetBytes(c.sfx) && AssetBytes(r.music) == AssetBytes(c.music)
    && forall i | 0 <= i < MAX_CODE_EDITOR_TAB_COUNT :: TabBytes(r.codeTabs[i]) == TabBytes(c.codeTabs[i])
  }

  lemma {:induction false} WellFormedBlocks(c: CartData)
    requires WellFormed(c)
    ensures AllPlain(CartBlocks(c)) && LuaFits(CartBlocks(c))
  {
    TabsRoundTrip(c.codeTabs, 0);
    CartBlocksKeep(c);
  }

  /** The sections `from_cart_source` slices from a written cartridge mirror its blocks. */
  lemma {:induction false} SectionsOfWritten(c: CartData)
    requires WellFormed(c)
    ensures Header.StartsWithSignature(IntoCartSource(c))
    ensures Header.HeaderSplit(IntoCartSource(c)) == Some((c.header.bytes, Emit(CartBlocks(c))))
    ensures Mirrors(CartSections(Emit(CartBlocks(c))), CartBlocks(c))
    ensures AllLuaSectionsOk(CartSections(Emit(CartBlocks(c))))
  {
    IntoCartSourceLayout(c);
    HeaderRoundTrip(c.header.bytes, Emit(CartBlocks(c)));
    WellFormedBlocks(c);
    SectionsOfEmit(CartBlocks(c));
    MirrorsLuaOk(CartSections(Emit(CartBlocks(c))), CartBlocks(c));
  }

  /** Of the sections sliced from a written cartridge, the one the fold keeps holds the cartridge's payload. */
  lemma {:induction false} LastOfWritten(c: CartData, t: SectionType)
    requires WellFormed(c)
    ensures PayloadOf(LastOfType(CartSections(Emit(CartBlocks(c))), t)) == CartPayload(c, t)
  {
    SectionsOfWritten(c);
    MirrorsLastOfType(CartSections(Emit(CartBlocks(c))), CartBlocks(c), t);
    CartBlocksFirst(c, t);
  }

  /** The tab array the fold builds holds the written tabs' bytes. */
  lemma {:induction false} FoldedTabs(ss: seq<Section>, tabs: CodeTabs)
    requires AllLuaSectionsOk(ss) && TabsOk(tabs)
    requires PayloadOf(LastOfType(ss, Lua)) == LuaPayload(tabs)
    ensures forall i | 0 <= i < MAX_CODE_EDITOR_TAB_COUNT :: TabBytes(FromIter(ss).codeTabs[i]) == TabBytes(tabs[i])
  {
    FromIterCodeSlot(ss);
    match LastOfType(ss, Lua)
    case None =>
      TabsRoundTrip(tabs, 0);
      assert forall i | 0 <= i < MAX_CODE_EDITOR_TAB_COUNT :: NO_TABS[i].None?;
    case Some(s) =>
      TabsRoundTrip(tabs, s.lineNumber);
  }

  /** An asset slot the fold builds holds the written bytes. */
  lemma {:induction false} FoldedAsset(ss: seq<Section>, c: CartData, t: SectionType)
    requires AllLuaSectionsOk(ss) && t != Lua && t != Label
    requires PayloadOf(LastOfType(ss, t)) == CartPayload(c, t)
    ensures AssetBytes(AssetSlot(FromIter(ss), t)) == CartPayload(c, t)
  {
    FromIterAssetSlot(ss, t);
  }

  /** The label slot the fold builds holds the written bytes. */
  lemma {:induction false} FoldedLabel(ss: seq<Section>, c: CartData)
    requires AllLuaSectionsOk(ss)
    requires PayloadOf(LastOfType(ss, Label)) == CartPayload(c, Label)
    ensures LabelBytes(FromIter(ss).cartLabel) == LabelBytes(c.cartLabel)
  {
    FromIterLabelSlot(ss);
  }

  /** The assets and the label the fold builds hold the written bytes. */
  lemma {:induction false} FoldedAssets(ss: seq<Section>, c: CartData)
    requires AllLuaSectionsOk(ss)
    requires forall t :: PayloadOf(LastOfType(ss, t)) == CartPayload(c, t)
    ensures FromIter(ss).gfx.Some? && FromIter(ss).gfx.value.assetData.bytes == c.gfx.assetData.bytes
    ensures LabelBytes(FromIter(ss).cartLabel) == LabelBytes(c.cartLabel)
    ensures AssetBytes(FromIter(ss).gff) == AssetBytes(c.gff)
    ensures AssetBytes(FromIter(ss).tileMap) == AssetBytes(c.tileMap)
    ensures AssetBytes(FromIter(ss).sfx) == AssetBytes(c.sfx)
    ensures AssetBytes(FromIter(ss).music) == AssetBytes(c.music)
  {
    FoldedAsset(ss, c, Gfx);
    FoldedAsset(ss, c, Gff);
    FoldedAsset(ss, c, Map);
    FoldedAsset(ss, c, Sfx);
    FoldedAsset(ss, c, Music);
    FoldedLabel(ss, c);
  }

  /**
   * `from_cart_source(into_cart_source(c))`: a well-formed cartridge
   * written out parses without panicking or error, and comes back with
   * the same bytes in every slot.
   */
  lemma {:induction false} IntoCartSourceRoundTrip(c: CartData)
    requires WellFormed(c)
    ensures Parsable(IntoCartSource(c))
    ensures ParseCart(IntoCartSource(c)).Ok?
    ensures SameBytes(ParseCart(IntoCartSource(c)).value, c)
  {
    var body := Emit(CartBlocks(c));
    var ss := CartSections(body);
    SectionsOfWritten(c);
    forall t: SectionType
      ensures PayloadOf(LastOfType(ss, t)) == CartPayload(c, t)
    {
      LastOfWritten(c, t);
    }
    FoldedAssets(ss, c);
    FoldedTabs(ss, c.codeTabs);
    var b := FromIter(ss);
    assert ParseCart(IntoCartSource(c)) == Ok(BuildWith(b, c.header.bytes).value);
  }

  // ---------------------------------------------------------------------
  // from_parts and the line it gives Gfx
  // ---------------------------------------------------------------------

  /** The lines of the spans, summed. */
  function SumLines(ds: seq<seq<Byte>>): nat
  {
    if ds == [] then 0 else |Lines(ds[0])| + SumLines(ds[1..])
  }

  /** Slots that are all empty hold no lines. */
  lemma {:induction false} CodeLineCountNone(tabs: seq<Option<Tab>>)
    requires forall i | 0 <= i < |tabs| :: tabs[i].None?
    ensures CodeLineCount(tabs) == 0
    decreases |tabs|
  {
    if tabs != [] {
      assert forall i | 0 <= i < |tabs[1..]| :: tabs[1..][i] == tabs[i + 1];
      CodeLineCountNone(tabs[1..]);
    }
  }

  /** With the occupied slots first, `from_parts` counts the lines of exactly the written tabs. */
  lemma {:induction false} CodeLineCountOfCodes(tabs: seq<Option<Tab>>)
    requires TabsOk(tabs)
    ensures CodeLineCount(tabs) == SumLines(Codes(tabs))
    decreases |tabs|
  {
    if tabs != [] {
      if tabs[0].None? {
        assert forall i | 0 <= i < |tabs| :: tabs[i].None?;
        CodeLineCountNone(tabs);
      } else {
        TabsOkTail(tabs);
        CodeLineCountOfCodes(tabs[1..]);
        assert Codes(tabs) == [tabs[0].value.codeData.bytes] + Codes(tabs[1..]);
        assert Codes(tabs)[1..] == Codes(tabs[1..]);
      }
    }
  }

  /** The `-->8` line is a terminated line. */
  lemma {:induction false} SeparatorIsLine()
    ensures IsLine(TAB_SEPARATOR_LINE) && EndsInNewline(TAB_SEPARATOR_LINE)
  {
    assert TAB_SEPARATOR_LINE == [0x2D, 0x2D, 0x3E, 0x38, NEWLINE];
  }

  /** A terminated span, a `-->8` line and the rest: one line more than the two together. */
  lemma {:induction false} SeparatedLines(a: seq<Byte>, rest: seq<Byte>)
    requires EndsInNewline(a)
    ensures |Lines(a + TAB_SEPARATOR_LINE + rest)| == |Lines(a)| + 1 + |Lines(rest)|
  {
    assert a + TAB_SEPARATOR_LINE + rest == a + (TAB_SEPARATOR_LINE + rest);
    LinesAppend(a, TAB_SEPARATOR_LINE + rest);
    SeparatorIsLine();
    LinesOfLine(TAB_SEPARATOR_LINE, rest);
  }

  /** Terminated spans joined by `-->8` lines: their lines plus one separator line between each two. */
  lemma {:induction false} JoinTabsLines(ds: seq<seq<Byte>>)
    requires |ds| >= 1 && forall k | 0 <= k < |ds| :: EndsInNewline(ds[k])
    ensures |Lines(JoinTabs(ds))| == SumLines(ds) + |ds| - 1
    decreases |ds|
  {
    if |ds| == 1 {
      assert ds[1..] == [];
    } else {
      assert forall k | 0 <= k < |ds[1..]| :: ds[1..][k] == ds[k + 1];
      JoinTabsLines(ds[1..]);
      SeparatedLines(ds[0], JoinTabs(ds[1..]));
    }
  }

  /** The Lua block is its `__lua__` line and the lines of the code, when there is code. */
  lemma {:induction false} LuaBlockOfPayload(tabs: CodeTabs)
    requires TabsOk(tabs)
    ensures |Lines(LuaBlock(tabs))| == if LuaPayload(tabs).Some? then 1 + |Lines(LuaPayload(tabs).value)| else 0
  {
    TabsRoundTrip(tabs, 0);
    if LuaPayload(tabs).Some? {
      var code := LuaPayload(tabs).value;
      BlockLines(Lua, code, []);
      assert WithData(Lua, code) + [] == LuaBlock(tabs);
    }
  }

  /**
   * The Lua block `into_cart_source` writes for tabs that read back as
   * themselves has one `__lua__` line, the tabs' lines and one `-->8`
   * line between each two tabs; none when no tab is occupied.
   */
  lemma {:induction false} LuaBlockLines(tabs: CodeTabs)
    requires TabsOk(tabs)
    ensures |Lines(LuaBlock(tabs))| == if Codes(tabs) == [] then 0 else CodeLineCount(tabs) + |Codes(tabs)|
  {
    LuaBlockOfPayload(tabs);
    CodeLineCountOfCodes(tabs);
    if Codes(tabs) != [] {
      LuaPayloadOk(tabs);
      CodesOk(tabs);
      JoinTabsLines(Codes(tabs));
    } else {
      JoinSlotsAll(tabs);
    }
  }

  /** A header `split_from` cuts back off is two lines. */
  lemma {:induction false} HeaderOkLines(h: seq<Byte>)
    requires HeaderOk(h)
    ensures |Lines(h)| == 2
  {
    var m := Header.CARTRIDGE_MARKER;
    var version := h[|m|..];
    Header.MarkerIsLine();
    assert h == m + version;
    LinesOfLine(m, version);
    LinesOfLine(version, []);
    assert version + [] == version;
  }

  /** The blocks `into_cart_source` writes for a cartridge with Gfx as its only asset. */
  lemma {:induction false} GfxOnlyBlocks(c: CartData)
    requires c.cartLabel.None? && c.gff.None? && c.tileMap.None? && c.sfx.None? && c.music.None?
    ensures CartBlocks(c) == OptBlock(Lua, LuaPayload(c.codeTabs)) + [Block(Gfx, c.gfx.assetData.bytes)]
  {
    assert TailBlocks(c) == [];
    assert OptBlock(Label, LabelBytes(c.cartLabel)) + TailBlocks(c) == [];
  }

  /** The delimiter of the Gfx block after an optional Lua block. */
  lemma {:induction false} GfxDelimiterLine(bs: seq<Block>, gfx: seq<Byte>, lua: Option<seq<Byte>>)
    requires bs == OptBlock(Lua, lua) + [Block(Gfx, gfx)]
    ensures BlockDelimiters(bs, 3, 0)[|bs| - 1].lineNumber == 3 + (if lua.Some? then 1 + |Lines(lua.value)| else 0)
  {
    if lua.Some? {
      assert bs[1..] == [Block(Gfx, gfx)];
      assert BlockDelimiters(bs, 3, 0)[1] == BlockDelimiters(bs[1..], NextLine(bs[0], 3), NextOffset(bs[0], 0))[0];
    }
  }

  /** Of sections mirroring an optional Lua block and a Gfx block, the Gfx one is the first. */
  lemma {:induction false} GfxSectionFirst(ss: seq<Section>, bs: seq<Block>, gfx: seq<Byte>, lua: Option<seq<Byte>>)
    requires bs == OptBlock(Lua, lua) + [Block(Gfx, gfx)] && Mirrors(ss, bs)
    ensures LastOfType(ss, Gfx) == Some(ss[0])
  {
    assert GetType(ss[0]) == bs[MirrorIndex(bs, 0)].sectionType;
    if lua.Some? {
      assert GetType(ss[1]) == bs[MirrorIndex(bs, 1)].sectionType;
      assert ss[..1] == [ss[0]];
    }
  }

  /** The line `from_cart_source` gives the Gfx block written after an optional Lua block. */
  lemma {:induction false} GfxSectionLine(bs: seq<Block>, gfx: seq<Byte>, lua: Option<seq<Byte>>)
    requires bs == OptBlock(Lua, lua) + [Block(Gfx, gfx)] && AllPlain(bs)
    ensures LastOfType(CartSections(Emit(bs)), Gfx).Some?
    ensures LastOfType(CartSections(Emit(bs)), Gfx).value.lineNumber
            == 3 + (if lua.Some? then 1 + |Lines(lua.value)| else 0)
  {
    var ds := BlockDelimiters(bs, 3, 0);
    var n := |bs|;
    CartSectionsOfEmit(bs);
    SectionsOfEmit(bs);
    GfxSectionFirst(CartSections(Emit(bs)), bs, gfx, lua);
    ReverseAt(ExpectedCuts(Emit(bs), ds, n), 0, n - 1);
    GfxDelimiterLine(bs, gfx, lua);
  }

  /**
   * A well-formed cartridge whose only asset is Gfx reads back with Gfx
   * at the line after the header and the Lua block.
   */
  lemma {:induction false} GfxOnlyReadLine(c: CartData)
    requires WellFormed(c)
    requires c.cartLabel.None? && c.gff.None? && c.tileMap.None? && c.sfx.None? && c.music.None?
    ensures Parsable(IntoCartSource(c)) && ParseCart(IntoCartSource(c)).Ok?
    ensures ParseCart(IntoCartSource(c)).value.gfx.lineNumber == 3 + |Lines(LuaBlock(c.codeTabs))|
  {
    var bs := CartBlocks(c);
    var ss := CartSections(Emit(bs));
    IntoCartSourceRoundTrip(c);
    SectionsOfWritten(c);
    GfxOnlyBlocks(c);
    WellFormedBlocks(c);
    GfxSectionLine(bs, c.gfx.assetData.bytes, LuaPayload(c.codeTabs));
    FromIterAssetSlot(ss, Gfx);
    LuaBlockOfPayload(c.codeTabs);
    assert ParseCart(IntoCartSource(c)) == Ok(BuildWith(FromIter(ss), c.header.bytes).value);
  }

  /**
   * Read back, the cartridge `from_parts` builds has its Gfx section at
   * the line where the corrected numbering puts it: after the header, the
   * `__lua__` line, the tabs' lines and the `-->8` lines.
   */
  lemma {:induction false} FromPartsAtMarkerLineRead(h: seq<Byte>, tabs: CodeTabs, gfx: seq<Byte>)
    requires HeaderOk(h) && TabsOk(tabs) && PlainPayload(gfx)
    ensures Parsable(IntoCartSource(FromPartsAtMarkerLine(h, tabs, gfx)))
    ensures ParseCart(IntoCartSource(FromPartsAtMarkerLine(h, tabs, gfx))).Ok?
    ensures ParseCart(IntoCartSource(FromPartsAtMarkerLine(h, tabs, gfx))).value.gfx.lineNumber
            == FromPartsAtMarkerLine(h, tabs, gfx).gfx.lineNumber
  {
    var c := FromPartsAtMarkerLine(h, tabs, gfx);
    assert WellFormed(c);
    GfxOnlyReadLine(c);
    HeaderOkLines(h);
  }

  /**
   * `from_parts` as written numbers Gfx `k + 1` lines before the line
   * `from_cart_source` reads it back at, for `k` occupied tabs: it counts
   * neither the `__lua__` and `-->8` lines nor from 1.
   */
  lemma {:induction false} FromPartsGfxLineGap(h: seq<Byte>, tabs: CodeTabs, gfx: seq<Byte>)
    requires HeaderOk(h) && TabsOk(tabs) && PlainPayload(gfx)
    ensures Parsable(IntoCartSource(FromParts(h, tabs, gfx)))
    ensures ParseCart(IntoCartSource(FromParts(h, tabs, gfx))).Ok?
    ensures ParseCart(IntoCartSource(FromParts(h, tabs, gfx))).value.gfx.lineNumber
            == FromParts(h, tabs, gfx).gfx.lineNumber + |Codes(tabs)| + 1
  {
    var c := FromParts(h, tabs, gfx);
    assert WellFormed(c);
    GfxOnlyReadLine(c);
    HeaderOkLines(h);
    LuaBlockLines(tabs);
    CodeLineCountOfCodes(tabs);
    assert c.gfx.lineNumber == 2 + CodeLineCount(tabs);
  }
}
