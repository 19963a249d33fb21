/**
 * The second version of the cartridge reader and the project compiler
 * built on the latest cart model: the `Fifo` ring buffer, the delimiter
 * scan with its sort, the section fold of `get_from_lines`, the Lua
 * section split into sixteen tabs, and the steps that turn Lua source
 * files into code tabs of a cartridge.
 */
module Lib {
  import opened Wrappers
  import opened Bytes
  import opened Section
  import CartModel

  // ---------------------------------------------------------------------
  // Fifo
  // ---------------------------------------------------------------------

  /** The slots after writing `v` at `c` and moving the cursor on, read from the new cursor. */
  lemma {:induction false} RotateAfterWrite<T>(s: seq<T>, c: nat, v: T)
    requires c < |s|
    ensures var next := if c + 1 == |s| then 0 else c + 1;
            s[c := v][next..] + s[c := v][..next] == (s[c..] + s[..c])[1..] + [v]
  {
    var w := s[c := v];
    if c + 1 == |s| {
      assert w == s[..c] + [v];
      assert (s[c..] + s[..c])[1..] == s[..c];
    } else {
      assert w[c + 1..] == s[c + 1..];
      assert w[..c + 1] == s[..c] + [v];
      assert (s[c..] + s[..c])[1..] == s[c + 1..] + s[..c];
    }
  }

  /**
   * `Fifo<T>`: a fixed-size buffer whose cursor marks the oldest slot;
   * writing overwrites the oldest element and moves the cursor on,
   * wrapping to the start.
   */
  class Fifo<T> {
    var inner: array<T>
    var cursor: nat

    /** The cursor stays within the buffer (or is 0 for an empty one). */
    predicate Valid()
      reads this
    {
      cursor == 0 || cursor < inner.Length
    }

    /** `from_iter` / `From<Box<[T]>>`: the values in order, cursor at 0. */
    constructor FromIter(values: seq<T>)
      ensures fresh(inner) && inner[..] == values && cursor == 0
      ensures Valid()
    {
      inner := new T[|values|](i requires 0 <= i < |values| => values[i]);
      cursor := 0;
    }

    /**
     * `incremented_cursor_value`: one past the cursor, wrapping to 0 at the
     * end. On an empty buffer the source returns 1 without panicking; the
     * model asks for a non-empty buffer because its only caller, `Overwrite`,
     * already needs one (writing into an empty buffer is undefined behaviour).
     */
    function IncrementedCursorValue(): (c: nat)
      reads this
      requires Valid() && inner.Length > 0
      ensures c < inner.Length
      ensures c == (cursor + 1) % inner.Length
    {
      if cursor + 1 == inner.Length then 0 else cursor + 1
    }

    /**
     * `iter` (and the `IntoIterator` impls): the slots from the cursor to
     * the end, then from the start up to the cursor; a rotation of the
     * whole buffer.
     */
    function Iter(): (r: seq<T>)
      reads this, inner
      requires Valid()
      ensures |r| == inner.Length
      ensures forall i | 0 <= i < inner.Length - cursor :: r[i] == inner[cursor + i]
      ensures forall i | inner.Length - cursor <= i < inner.Length :: r[i] == inner[cursor + i - inner.Length]
    {
      inner[cursor..] + inner[..cursor]
    }

    /**
     * `overwrite`: writes at the cursor, returns where it wrote and moves
     * the cursor on. Writing into an empty buffer is undefined behaviour
     * in the source, so the buffer must be non-empty. Read from the
     * cursor, the buffer loses its oldest element and gains `value` last.
     */
    method Overwrite(value: T) returns (writeIndex: nat)
      requires Valid() && inner.Length > 0
      modifies this, inner
      ensures inner == old(inner) && writeIndex == old(cursor)
      ensures inner[..] == old(inner[..])[writeIndex := value]
      ensures cursor == (writeIndex + 1) % inner.Length
      ensures Valid()
      ensures Iter() == old(Iter())[1..] + [value]
    {
      RotateAfterWrite(inner[..], cursor, value);
      inner[cursor] := value;
      writeIndex := cursor;
      cursor := IncrementedCursorValue();
      assert inner[cursor..] == inner[..][cursor..] && inner[..cursor] == inner[..][..cursor];
    }

    /** `reset_cursor`: the oldest slot is the first again. */
    method ResetCursor()
      modifies this
      ensures cursor == 0 && inner == old(inner)
      ensures Valid() && Iter() == inner[..]
    {
      cursor := 0;
    }
  }

  /**
   * The unit test `scroll_buffer_contiguous_iter`: a buffer of 0, 1, 2, 3
   * reads 1, 2, 3, 4 after writing 4 and 2, 3, 4, 5 after writing 5.
   */
  method ScrollBufferContiguousIter() returns (initial: seq<nat>, afterFour: seq<nat>, afterFive: seq<nat>)
    ensures initial == [0, 1, 2, 3]
    ensures afterFour == [1, 2, 3, 4]
    ensures afterFive == [2, 3, 4, 5]
  {
    var sb := new Fifo<nat>.FromIter([0, 1, 2, 3]);
    initial := sb.Iter();
    assert initial == sb.inner[..];
    var _ := sb.Overwrite(4);
    afterFour := sb.Iter();
    var _ := sb.Overwrite(5);
    afterFive := sb.Iter();
  }

  // ---------------------------------------------------------------------
  // get_section_delimiters / get_from_lines
  // ---------------------------------------------------------------------

  /**
   * `get_section_delimiters`: the same line walk as the latest model, then
   * a sort by line number, which finds the delimiters already in order.
   */
  method GetSectionDelimiters(src: seq<Byte>, lineNumberOffset: Option<nat>) returns (ds: seq<SectionDelimiter>)
    ensures CartModel.SortedByLine(ds)
    ensures ds == CartModel.SectionDelimiters(src, lineNumberOffset)
  {
    var scanned := CartModel.GetSectionDelimiters(src, lineNumberOffset);
    CartModel.SectionDelimitersOrdered(src, lineNumberOffset);
    CartModel.SortByLineSorted(scanned);
    ds := CartModel.SortByLine(scanned);
  }

  /**
   * The sections the reverse walk of `get_from_lines` cuts: the same cut
   * as the latest model's `get_sections`, over the sorted delimiters
   * reversed.
   */
  function LibSections(src: seq<Byte>, lineNumberOffset: Option<nat>): seq<Section>
  {
    CartModel.CutRev(src, CartModel.Reverse(CartModel.SectionDelimiters(src, lineNumberOffset)), true, 0)
  }

  /** The walk yields its sections last line first. */
  lemma {:induction false} LibSectionsDescending(src: seq<Byte>, lineNumberOffset: Option<nat>)
    ensures CartModel.NonIncreasing(LibSections(src, lineNumberOffset))
  {
    var ds := CartModel.SectionDelimiters(src, lineNumberOffset);
    CartModel.SectionDelimitersOrdered(src, lineNumberOffset);
    var rev := CartModel.Reverse(ds);
    assert CartModel.NonIncreasingDelimiters(rev);
    CartModel.CutRevDescending(src, rev, true, 0);
  }

  /** `P8CartDataBuilder`: one optional section per type. */
  datatype P8CartDataBuilder = P8CartDataBuilder(
    lua: Option<Section>,
    gfx: Option<Section>,
    gff: Option<Section>,
    cartLabel: Option<Section>,
    tileMap: Option<Section>,
    sfx: Option<Section>,
    music: Option<Section>)

  const EMPTY_BUILDER: P8CartDataBuilder := P8CartDataBuilder(None, None, None, None, None, None, None)

  /** The builder slot of type `t`. */
  function Slot(b: P8CartDataBuilder, t: SectionType): Option<Section>
  {
    match t
    case Lua => b.lua
    case Gfx => b.gfx
    case Gff => b.gff
    case Label => b.cartLabel
    case Map => b.tileMap
    case Sfx => b.sfx
    case Music => b.music
  }

  /** One step of the fold: the section takes its type's slot. */
  function Absorb(acc: P8CartDataBuilder, s: Section): (r: P8CartDataBuilder)
    ensures Slot(r, GetType(s)) == Some(s)
    ensures forall t | t != GetType(s) :: Slot(r, t) == Slot(acc, t)
  {
    match GetType(s)
    case Lua => acc.(lua := Some(s))
    case Gfx => acc.(gfx := Some(s))
    case Gff => acc.(gff := Some(s))
    case Label => acc.(cartLabel := Some(s))
    case Map => acc.(tileMap := Some(s))
    case Sfx => acc.(sfx := Some(s))
    case Music => acc.(music := Some(s))
  }

  /** `P8CartDataBuilder::from_iter`: a left fold from the empty builder. */
  function FromIter(ss: seq<Section>): P8CartDataBuilder
  {
    if ss == [] then EMPTY_BUILDER else Absorb(FromIter(ss[..|ss| - 1]), ss[|ss| - 1])
  }

  /** After the fold, every slot holds the last section of its type. */
  lemma {:induction false} FromIterSlot(ss: seq<Section>, t: SectionType)
    ensures Slot(FromIter(ss), t) == CartModel.LastOfType(ss, t)
  {
    if ss != [] {
      FromIterSlot(ss[..|ss| - 1], t);
    }
  }

  /** `P8CartData`: Lua and Gfx are required, the rest optional. */
  datatype P8CartData = P8CartData(
    lua: Section,
    gfx: Section,
    gff: Option<Section>,
    cartLabel: Option<Section>,
    tileMap: Option<Section>,
    sfx: Option<Section>,
    music: Option<Section>)

  /** `build`: `None` exactly when the Lua or the Gfx slot is empty. */
  function Build(b: P8CartDataBuilder): (r: Option<P8CartData>)
    ensures r.None? <==> b.lua.None? || b.gfx.None?
    ensures r.Some? ==>
              r.value.lua == b.lua.value && r.value.gfx == b.gfx.value && r.value.gff == b.gff
              && r.value.cartLabel == b.cartLabel && r.value.tileMap == b.tileMap
              && r.value.sfx == b.sfx && r.value.music == b.music
  {
    if b.lua.None? || b.gfx.None? then None
    else Some(P8CartData(b.lua.value, b.gfx.value, b.gff, b.cartLabel, b.tileMap, b.sfx, b.music))
  }

  /** `get_from_lines` does not panic: `build` succeeds, else `expect` panics. */
  predicate GetFromLinesOk(src: seq<Byte>, lineNumberOffset: Option<nat>)
  {
    Build(FromIter(LibSections(src, lineNumberOffset))).Some?
  }

  /** `get_from_lines` succeeds exactly when a Lua and a Gfx section were cut. */
  lemma {:induction false} GetFromLinesOkIff(src: seq<Byte>, lineNumberOffset: Option<nat>)
    ensures GetFromLinesOk(src, lineNumberOffset) <==>
              (exists i | 0 <= i < |LibSections(src, lineNumberOffset)| :: GetType(LibSections(src, lineNumberOffset)[i]) == Lua)
              && (exists i | 0 <= i < |LibSections(src, lineNumberOffset)| :: GetType(LibSections(src, lineNumberOffset)[i]) == Gfx)
  {
    var ss := LibSections(src, lineNumberOffset);
    FromIterSlot(ss, Lua);
    FromIterSlot(ss, Gfx);
  }

  /**
   * `get_from_lines`: scan, cut last line first, fold, build. Every slot
   * holds the last section of its type in the walk, which is the earliest
   * in the file.
   */
  function GetFromLines(src: seq<Byte>, lineNumberOffset: Option<nat>): (r: P8CartData)
    requires GetFromLinesOk(src, lineNumberOffset)
    ensures var ss := LibSections(src, lineNumberOffset);
            Some(r.lua) == CartModel.LastOfType(ss, Lua) && Some(r.gfx) == CartModel.LastOfType(ss, Gfx)
            && r.gff == CartModel.LastOfType(ss, Gff) && r.cartLabel == CartModel.LastOfType(ss, Label)
            && r.tileMap == CartModel.LastOfType(ss, Map) && r.sfx == CartModel.LastOfType(ss, Sfx)
            && r.music == CartModel.LastOfType(ss, Music)
  {
    var ss := LibSections(src, lineNumberOffset);
    FromIterSlot(ss, Lua);
    FromIterSlot(ss, Gfx);
    FromIterSlot(ss, Gff);
    FromIterSlot(ss, Label);
    FromIterSlot(ss, Map);
    FromIterSlot(ss, Sfx);
    FromIterSlot(ss, Music);
    Build(FromIter(ss)).value
  }

  // ---------------------------------------------------------------------
  // P8CodeData::from_lua_section
  // ---------------------------------------------------------------------

  /**
   * The line number this version records for tab `k`: tab 0 after the
   * marker line; every later tab one line after the previous tab's lines,
   * the separator being counted before the tab is recorded.
   */
  function LibTabStart(lineNumber: nat, spans: seq<seq<Byte>>, k: nat): nat
    requires k <= |spans|
  {
    if k == 0 then lineNumber + 1
    else LibTabStart(lineNumber, spans, k - 1) + |Lines(spans[k - 1])| + 1
  }

  /**
   * Tab `k` is recorded at `lineNumber + 1 + k + lines of the tabs before
   * it`: one more than the latest model records for every tab after the first.
   */
  lemma {:induction false} LibTabStartClosedForm(lineNumber: nat, spans: seq<seq<Byte>>, k: nat)
    requires k <= |spans|
    ensures LibTabStart(lineNumber, spans, k) == lineNumber + 1 + k + CartModel.LinesBefore(spans, k)
    ensures LibTabStart(lineNumber, spans, k) == CartModel.TabStart(lineNumber, spans, k) + (if k >= 1 then 1 else 0)
  {
    if k > 0 {
      LibTabStartClosedForm(lineNumber, spans, k - 1);
      CartModel.TabStartClosedForm(lineNumber, spans, k);
    }
  }

  /** The tab array with the first `k` spans recorded, the other slots `None`. */
  function LibFilledTabs(lineNumber: nat, spans: seq<seq<Byte>>, k: nat): CartModel.CodeTabs
    requires k <= |spans| <= CartModel.MAX_CODE_EDITOR_TAB_COUNT
  {
    seq(CartModel.MAX_CODE_EDITOR_TAB_COUNT, i requires 0 <= i < CartModel.MAX_CODE_EDITOR_TAB_COUNT =>
      if i < k then Some(CartModel.Tab(LibTabStart(lineNumber, spans, i), Borrowed(spans[i]))) else None)
  }

  lemma {:induction false} LibFilledTabsStep(lineNumber: nat, spans: seq<seq<Byte>>, k: nat)
    requires k < |spans| <= CartModel.MAX_CODE_EDITOR_TAB_COUNT
    ensures LibFilledTabs(lineNumber, spans, k + 1)
            == LibFilledTabs(lineNumber, spans, k)[k := Some(CartModel.Tab(LibTabStart(lineNumber, spans, k), Borrowed(spans[k])))]
  {
  }

  /**
   * The sixteen slots `from_lua_section` fills: slot `i` holds the `i`-th
   * span between separators and its line number; the others are `None`.
   */
  function CodeDataOf(lineNumber: nat, data: seq<Byte>): (r: CartModel.CodeTabs)
    requires CartModel.TabsFit(data)
    ensures forall i | 0 <= i < CartModel.MAX_CODE_EDITOR_TAB_COUNT ::
              r[i].Some? <==> i < |TabSpans(data)|
    ensures forall i | 0 <= i < |TabSpans(data)| ::
              r[i] == Some(CartModel.Tab(LibTabStart(lineNumber, TabSpans(data), i), Borrowed(TabSpans(data)[i])))
  {
    LibFilledTabs(lineNumber, TabSpans(data), |TabSpans(data)|)
  }

  /**
   * `P8CodeData::from_lua_section`: a `for` loop over `TabIter` writing
   * the slots; more than sixteen spans index past the array.
   */
  method FromLuaSection(lineNumber: nat, sectionData: seq<Byte>) returns (tabs: CartModel.CodeTabs)
    requires CartModel.TabsFit(sectionData)
    ensures tabs == CodeDataOf(lineNumber, sectionData)
  {
    var slots: seq<Option<CartModel.Tab>> := CartModel.NO_TABS;
    ghost var spans := TabSpans(sectionData);
    var iter := new TabIter(sectionData);
    var ln: nat := lineNumber + 1;
    var idx: nat := 0;
    assert slots == LibFilledTabs(lineNumber, spans, 0);
    while true
      invariant fresh(iter) && iter.Valid() && idx <= |spans|
      invariant iter.Remaining() == spans[idx..]
      invariant ln + (if idx != 0 then 1 else 0) == LibTabStart(lineNumber, spans, idx)
      invariant slots == LibFilledTabs(lineNumber, spans, idx)
      decreases |iter.Remaining()|
    {
      ghost var rest0 := iter.Remaining();
      var tab := iter.Next();
      if tab.None? {
        break;
      }
      ghost var ln0, idx0, slots0 := ln, idx, slots;
      if idx != 0 {
        ln := ln + 1;
      }
      ghost var at := ln;
      slots := slots[idx := Some(CartModel.Tab(ln, Borrowed(tab.value)))];
      var linesInSection := CountLines(tab.value);
      ln := ln + linesInSection;
      idx := idx + 1;
      LibTabsStep(lineNumber, spans, rest0, tab.value, idx0, ln0, slots0, at, linesInSection, idx, ln, slots, iter.Remaining());
    }
    tabs := slots;
  }

  /** One pass of the loop: the next span is recorded in the next slot and the line count moves past it. */
  lemma {:induction false} LibTabsStep(lineNumber: nat, spans: seq<seq<Byte>>, rest0: seq<seq<Byte>>, span: seq<Byte>,
                                       k0: nat, ln0: nat, slots0: seq<Option<CartModel.Tab>>, at: nat, lines: nat,
                                       k: nat, ln: nat, slots: seq<Option<CartModel.Tab>>, rest: seq<seq<Byte>>)
    requires |spans| <= CartModel.MAX_CODE_EDITOR_TAB_COUNT && k0 <= |spans| && rest0 == spans[k0..]
    requires ln0 + (if k0 != 0 then 1 else 0) == LibTabStart(lineNumber, spans, k0)
    requires slots0 == LibFilledTabs(lineNumber, spans, k0)
    requires rest0 != [] && span == rest0[0] && rest == rest0[1..]
    requires at == ln0 + (if k0 != 0 then 1 else 0) && lines == |Lines(span)| && k == k0 + 1 && ln == at + lines
    requires slots == slots0[k0 := Some(CartModel.Tab(at, Borrowed(span)))]
    ensures k <= |spans| && rest == spans[k..]
    ensures ln + (if k != 0 then 1 else 0) == LibTabStart(lineNumber, spans, k)
    ensures slots == LibFilledTabs(lineNumber, spans, k)
  {
    assert span == spans[k0] && rest == spans[k..];
    LibFilledTabsStep(lineNumber, spans, k0);
  }

  // ---------------------------------------------------------------------
  // Compiling source files into code tabs
  // ---------------------------------------------------------------------

  /** A loaded Lua source file: its file stem (as UTF-8) and its bytes. */
  datatype SourceFile = SourceFile(name: seq<Byte>, data: seq<Byte>)

  /** A Lua comment opener. */
  const COMMENT_PREFIX: seq<Byte> := Ascii("--")

  /**
   * `collect_into`: a file that starts with a comment is taken as is;
   * any other gets a `-- name` title line first, so the editor shows it.
   */
  function CollectInto(f: SourceFile): seq<Byte>
  {
    if COMMENT_PREFIX <= f.data then f.data else Ascii("-- ") + f.name + [NEWLINE] + f.data
  }

  /**
   * The collected text always starts with a comment and ends with the
   * file's data; it is the data itself exactly when that starts with a
   * comment, and the data under a `-- name` title line otherwise.
   */
  lemma {:induction false} CollectIntoShape(f: SourceFile)
    ensures COMMENT_PREFIX <= CollectInto(f)
    ensures |f.data| <= |CollectInto(f)| && CollectInto(f)[|CollectInto(f)| - |f.data|..] == f.data
    ensures CollectInto(f) == f.data <==> COMMENT_PREFIX <= f.data
    ensures CollectInto(f) != f.data ==> CollectInto(f) == Ascii("-- ") + f.name + [NEWLINE] + f.data
  {
    var r := CollectInto(f);
    if !(COMMENT_PREFIX <= f.data) {
      assert r[..2] == COMMENT_PREFIX;
    }
  }

  /** Collecting an already collected file changes nothing. */
  lemma {:induction false} CollectIntoIdempotent(f: SourceFile)
    ensures CollectInto(SourceFile(f.name, CollectInto(f))) == CollectInto(f)
  {
    CollectIntoShape(f);
  }

  /**
   * With a name free of newlines, the title line is one extra line before
   * the file's own lines.
   */
  lemma {:induction false} CollectIntoLines(f: SourceFile)
    requires NEWLINE !in f.name
    ensures Lines(CollectInto(f)) == (if COMMENT_PREFIX <= f.data then [] else [Ascii("-- ") + f.name + [NEWLINE]]) + Lines(f.data)
  {
    if !(COMMENT_PREFIX <= f.data) {
      var title := Ascii("-- ") + f.name + [NEWLINE];
      assert forall j | 0 <= j < |title| - 1 :: title[..|title| - 1][j] == title[j];
      assert CollectInto(f) == title + f.data;
      LinesOfLine(title, f.data);
    }
  }

  /**
   * The tabs `source_files_to_tabs` yields for `files` when the running
   * line count starts at `lineNumber`.
   */
  function SourceTabsFrom(files: seq<SourceFile>, lineNumber: nat): (r: seq<CartModel.Tab>)
    ensures |r| == |files|
    decreases |files|
  {
    if files == [] then []
    else [FileTab(files[0], lineNumber)] + SourceTabsFrom(files[1..], lineNumber + LineCount(files[0]))
  }

  /** The tab a file becomes when it starts at `lineNumber`. */
  function FileTab(f: SourceFile, lineNumber: nat): CartModel.Tab
  {
    CartModel.Tab(lineNumber, Owned(CollectInto(f)))
  }

  /** The lines of a file, counted before any title line is added. */
  function LineCount(f: SourceFile): nat
  {
    |Lines(f.data)|
  }

  /** The tabs `source_files_to_tabs` yields: the line count starts at 0. */
  function SourceTabsOf(files: seq<SourceFile>): (r: seq<CartModel.Tab>)
    ensures |r| == |files|
  {
    SourceTabsFrom(files, 0)
  }

  /** The lines of the first `k` files, counted before any title line is added. */
  function LinesBeforeFile(files: seq<SourceFile>, k: nat): nat
    requires k <= |files|
    decreases k
  {
    if k == 0 then 0 else LineCount(files[0]) + LinesBeforeFile(files[1..], k - 1)
  }

  /**
   * Tab `k` starts after the lines of the files before it and owns file
   * `k`'s collected bytes.
   */
  lemma {:induction false} SourceTabAt(files: seq<SourceFile>, lineNumber: nat, k: nat)
    requires k < |files|
    ensures SourceTabsFrom(files, lineNumber)[k] == FileTab(files[k], lineNumber + LinesBeforeFile(files, k))
    decreases k
  {
    if k > 0 {
      SourceTabAt(files[1..], lineNumber + LineCount(files[0]), k - 1);
      SourceTabsFromTail(files, lineNumber, k);
    }
  }

  lemma {:induction false} SourceTabsFromTail(files: seq<SourceFile>, lineNumber: nat, k: nat)
    requires 0 < k < |files|
    ensures SourceTabsFrom(files, lineNumber)[k] == SourceTabsFrom(files[1..], lineNumber + LineCount(files[0]))[k - 1]
    ensures files[1..][k - 1] == files[k]
  {
  }

  /** `source_files_to_tabs`: maps the files to tabs, carrying the running line count. */
  method SourceFilesToTabs(files: seq<SourceFile>) returns (tabs: seq<CartModel.Tab>)
    ensures tabs == SourceTabsOf(files)
  {
    var lineNumber: nat := 0;
    tabs := [];
    for k := 0 to |files|
      invariant tabs + SourceTabsFrom(files[k..], lineNumber) == SourceTabsOf(files)
    {
      var linesInFile := CountLines(files[k].data);
      ghost var tabs0, lineNumber0 := tabs, lineNumber;
      tabs := tabs + [FileTab(files[k], lineNumber)];
      lineNumber := lineNumber + linesInFile;
      SourceTabsStep(files, k, tabs0, lineNumber0, linesInFile, tabs, lineNumber);
    }
    assert files[|files|..] == [];
  }

  /** One pass of the loop: the next file's tab moves from the pending tabs to the produced ones. */
  lemma {:induction false} SourceTabsStep(files: seq<SourceFile>, k: nat, tabs0: seq<CartModel.Tab>, lineNumber0: nat,
                                          linesInFile: nat, tabs: seq<CartModel.Tab>, lineNumber: nat)
    requires k < |files| && tabs0 + SourceTabsFrom(files[k..], lineNumber0) == SourceTabsOf(files)
    requires linesInFile == LineCount(files[k])
    requires tabs == tabs0 + [FileTab(files[k], lineNumber0)] && lineNumber == lineNumber0 + linesInFile
    ensures tabs + SourceTabsFrom(files[k + 1..], lineNumber) == SourceTabsOf(files)
  {
    assert files[k..][0] == files[k] && files[k..][1..] == files[k + 1..];
    SourceTabsFromCons(files[k..], lineNumber0, files[k], files[k + 1..], lineNumber);
    ShiftHead(tabs0, FileTab(files[k], lineNumber0), SourceTabsFrom(files[k + 1..], lineNumber));
  }

  lemma {:induction false} SourceTabsFromCons(fs: seq<SourceFile>, lineNumber: nat, f: SourceFile,
                                              rest: seq<SourceFile>, next: nat)
    requires fs != [] && f == fs[0] && rest == fs[1..] && next == lineNumber + LineCount(f)
    ensures SourceTabsFrom(fs, lineNumber) == [FileTab(f, lineNumber)] + SourceTabsFrom(rest, next)
  {
  }

  /**
   * `compile_tabs`: the `i`-th tab goes to slot `i`; more than sixteen
   * tabs index past the array.
   */
  function CompileTabs(tabs: seq<CartModel.Tab>): (r: CartModel.CodeTabs)
    requires |tabs| <= CartModel.MAX_CODE_EDITOR_TAB_COUNT
    ensures forall i | 0 <= i < CartModel.MAX_CODE_EDITOR_TAB_COUNT ::
              r[i] == if i < |tabs| then Some(tabs[i]) else None
  {
    if tabs == [] then CartModel.NO_TABS
    else CompileTabs(tabs[..|tabs| - 1])[|tabs| - 1 := Some(tabs[|tabs| - 1])]
  }

  /** Whether any slot holds a tab. */
  function AnyTab(slots: seq<Option<CartModel.Tab>>): (r: bool)
    ensures r <==> exists i | 0 <= i < |slots| :: slots[i].Some?
  {
    if slots == [] then false
    else slots[0].Some? || AnyTab(slots[1..])
  }

  /**
   * `compile_cartridge` on a loaded cartridge: the files' tabs replace the
   * cartridge's code tabs, unless there are no files, which leaves the
   * cartridge as it was.
   */
  function CompileCartridge(cart: CartModel.CartData, files: seq<SourceFile>): (r: CartModel.CartData)
    requires |files| <= CartModel.MAX_CODE_EDITOR_TAB_COUNT
    ensures files == [] ==> r == cart
    ensures files != [] ==> r == CartModel.SetCodeData(cart, CompileTabs(SourceTabsOf(files)))
  {
    var codeTabs := CompileTabs(SourceTabsOf(files));
    if AnyTab(codeTabs) then CartModel.SetCodeData(cart, codeTabs) else cart
  }
}
