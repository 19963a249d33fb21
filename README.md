# PICO-8 cartridge reader and writer, modelled in Dafny

This project models the core of `pico-build-rs`: the code that reads and
writes PICO-8 `.p8` text cartridges. A cartridge is a signature line, a
`version N` line, then sections, each opened by a marker line (`__lua__`,
`__gfx__`, `__gff__`, `__label__`, `__map__`, `__sfx__`, `__music__`). The
Lua section is split into up to sixteen code-editor tabs by `-->8` lines.

The repository implements the reader three times, and each is modelled as
written, because they differ:

- `Draft` (the early `src/lib.rs`): its own header split, a delimiter scan
  over newline-terminated lines, and an eight-slot Lua split that keeps the
  `-->8` in each tab.
- `Lib` (the second version, `lib/src/lib.rs`): the `Fifo` ring buffer, a
  sorted delimiter scan, the seven-slot section fold, the sixteen-slot Lua
  split, and the steps that turn Lua files into code tabs of a cartridge.
- `CartModel` (the latest, `pico-8/cart-model/src/lib.rs`): the delimiter
  scan, the reverse walk that cuts sections, the tab split, the builder
  fold, `from_cart_source`, `set_code_data`, `from_parts`, `into_owned`
  and `into_cart_source`.

They share these modules:

- `Bytes`: the byte scanners of `bytes/src/lib.rs` and `src/bytes.rs`,
  with `NewlineIter` and `TabIter` as classes.
- `Text`: UTF-8 validity, `trim_end` and unsigned parsing, as far as the
  header needs them.
- `Section`: the marker table, the classifier and the section values.
- `Header`: `src/header.rs`.
- `LibSection`: what `lib/src/section.rs` adds.
- `Cli`: the log queue and the argument checks of the command-line tool.

`RoundTrip` proves that `from_cart_source` reads back what
`into_cart_source` writes, for every well-formed cartridge.

Bytes are `Byte = b: int | 0 <= b < 256` and byte strings are
`seq<Byte>`. Iterators that step a cursor are classes with a `Next`
method, proved against a function that gives the whole sequence they
yield (`Lines`, `TabSpans`). Loops that fill arrays or accumulate offsets
are methods proved equal to such a function. Panics in the source are
preconditions.

Where the intent and the code disagree, the model follows the code.
`get_sections` yields its sections last line first, and the builder folds
them in that order. So when a section type occurs twice, the slot keeps
the one that comes first in the file (`CartModel.LastOfTypeIsEarliest`,
`RoundTrip.MirrorsLastOfType`), not the last one. More than sixteen tab
spans index past the tab array, which panics; the spans are not silently
dropped (`CartModel.TabsFit`).

## Model

| member | source | states |
|---|---|---|
| Bytes.FirstIndexOf | bytes/src/lib.rs:1-14 | Some(i) only where the byte sits and no earlier index holds it; None exactly when the byte is absent; `src/lib.rs:20-25` does the same |
| Bytes.FindIndexOfElement | bytes/src/lib.rs:1-14 | the forward `while` scan returns the first index of the byte, or None |
| Bytes.SplitLn | bytes/src/lib.rs:16-24 | None exactly when there is no newline; otherwise the parts concatenate to the input and the first ends at the first newline, its only one; `src/lib.rs:28-31` does the same |
| Bytes.FindSequence | bytes/src/lib.rs:28-38 | the least index where the pattern occurs; None exactly when it occurs nowhere, and always when it is longer than the input; the pattern must be non-empty; `src/bytes.rs:3-13` does the same |
| Bytes.SplitAtSequenceExclusive | bytes/src/lib.rs:41-46 | None exactly when the search fails; otherwise the parts concatenate to the input, the first part ends with the pattern, and the pattern occurs nowhere earlier in it; `src/bytes.rs:16-21` does the same |
| Bytes.LinesConcat | bytes/src/lib.rs:72-93 | concatenating every line `NewlineIter` yields gives the input back |
| Bytes.LinesShape | bytes/src/lib.rs:72-93 | each line holds a newline only as its last byte; all but the last end in one; no lines exactly for empty input; the last line is terminated iff the input is |
| Bytes.LinesCount | bytes/src/lib.rs:72-93 | the number of lines is the number of newlines, plus one for a non-empty unterminated tail |
| Bytes.LinesAppend | bytes/src/lib.rs:72-93 | splitting lines of a terminated prefix and of the rest separately gives the same lines |
| Bytes.NewlineIter.constructor | bytes/src/lib.rs:52-54 | a new iterator holds the whole input and will yield exactly `Lines(src)` |
| Bytes.NewlineIter.Next | bytes/src/lib.rs:72-99 | yields the next pending line and drops it from what remains; returns None exactly when nothing remains, and stays None once it has (fused) |
| Bytes.CountLines | bytes/src/lib.rs:95-99 | `count()` over the iterator returns the number of lines |
| Bytes.TabSpans | bytes/src/lib.rs:117-138 | `TabIter` always yields at least one span |
| Bytes.TabIter.constructor | bytes/src/lib.rs:105-107 | a new iterator holds the whole input |
| Bytes.TabIter.Next | bytes/src/lib.rs:119-138 | without a separator left, yields the whole rest and stops; at a separator, yields the bytes before it and skips the separator and the byte after it; None once exhausted; yields exactly `TabSpans` |
| Bytes.TabSpansJoin | bytes/src/lib.rs:132-137 | on input whose every `-->8` is followed by a newline, `TabIter` never panics and joining its spans with `-->8\n` restores the input |
| Bytes.TabSpansOfJoin | bytes/src/lib.rs:119-138 | spans free of `-->8` joined with `-->8\n` split back into exactly those spans |
| Text.TrimEnd | src/header.rs:76-87 | `trim_end` gives a prefix of its input that ends in no white space, and what it drops is White_Space only |
| Text.TrimEndOfWhitespace | src/header.rs:76-87 | text not ending in White_Space, followed by any run of White_Space, trims back to exactly that text |
| Text.AccumulateValue | src/header.rs:76-87 | the digit loop succeeds exactly on an all-digit string whose value fits, and then returns that decimal value |
| Text.ParseUnsigned | src/header.rs:76-87 | `from_str` for an unsigned type: Empty error exactly for empty input; Ok exactly for an optional `+` then at least one digit, all digits, within the maximum; the value is the decimal value |
| Section.Marker | pico-8/cart-model/src/section.rs:16-33 | each marker is 7 to 9 bytes, starts with `__` and holds no newline |
| Section.MarkersPrefixFree | pico-8/cart-model/src/section.rs:16-33 | for distinct types, neither marker is a prefix of the other, so the seven are pairwise distinct; `lib/src/section.rs:20-36` does the same |
| Section.Rank | pico-8/cart-model/src/section.rs:36-44 | every type has its place in the table `get_line_type` searches |
| Section.FindType | pico-8/cart-model/src/section.rs:46-51 | `find` returns a type of the table whose marker starts the line, None exactly when none does |
| Section.GetLineTypeIsFind | pico-8/cart-model/src/section.rs:36-51 | the classifier is `find` over Lua, Gfx, Gff, Label, Map, Sfx, Music in that order; `lib/src/section.rs:39-54` does the same |
| Section.GetLineTypeNone | pico-8/cart-model/src/section.rs:46-51 | a line is unclassified exactly when no marker starts it |
| Section.GetLineTypeExact | pico-8/cart-model/src/section.rs:46-51 | a line is classified as t exactly when t's marker starts it |
| Section.GetLineTypeOfMarker | pico-8/cart-model/src/section.rs:16-51 | a marker followed by anything is classified as its own type |
| Section.CompareDelimiters | pico-8/cart-model/src/section.rs:64-74 | delimiters compare by line number alone: Less, Equal, Greater exactly as the line numbers do; `lib/src/section.rs:67-77` does the same |
| Section.CompareSections | pico-8/cart-model/src/section.rs:109-119 | sections compare by line number alone |
| Section.NewInner | pico-8/cart-model/src/section.rs:122-157 | the variant built for t reports type t, the line number and the data it was given |
| Section.New | pico-8/cart-model/src/section.rs:158-166 | `new(t, n, d)` has `get_type() == t`, `line_number() == n` and data `Borrowed(d)` |
| Section.SectionDeterminedByParts | pico-8/cart-model/src/section.rs:167-199 | two sections with equal type, line number and data are equal, so the accessors lose nothing |
| Section.IntoOwned | pico-8/cart-model/src/section.rs:200-237 | same type and line number, the same bytes now owned; `lib/src/section.rs:132-143` does the same |
| LibSection.ToOwned | lib/src/section.rs:87-91 | the boxed copy holds the same bytes |
| LibSection.ToOwnedDeref | lib/src/section.rs:87-122 | viewing the owned copy gives the original bytes back |
| LibSection.SplitAtSequenceExclusive | lib/src/section.rs:96-104 | the same split as `bytes::split_at_sequence_exclusive` on the same bytes: None exactly when absent, parts concatenate, leftmost occurrence ends the first part |
| Header.MarkerIsLine | src/header.rs:111 | the signature line is a 42-byte line ending in its only newline |
| Header.SignatureLines | src/header.rs:152-162 | a source starting with the signature has it as its first line |
| Header.HeaderSplit | src/header.rs:152-177 | on success the header and the remainder concatenate to the source and the header starts with the signature |
| Header.HeaderSplitLines | src/header.rs:157-176 | None exactly when there are fewer than two lines or the second is not UTF-8; otherwise the header is exactly the first two lines and the remainder holds the other lines |
| Header.SplitFrom | src/header.rs:152-177 | stepping a `NewlineIter` twice returns exactly `HeaderSplit`; the signature line is a precondition |
| Header.CopyToBoxedSlice | src/header.rs:22-44 | `copy_to_boxed_slice` and `to_owned`: the copy has the same length and the same byte at every index |
| Header.GetAsTuple | src/header.rs:117-126 | None exactly when the header is shorter than the signature; otherwise the signature and the rest, which concatenate to the header |
| Header.GetVersion | src/header.rs:127-129 | the header bytes after the signature line, None when too short |
| Header.GetVersionOfSplit | src/header.rs:127-177 | the version of a header `split_from` cut off is the source's second line |
| Header.VersionParse | src/header.rs:76-87 | parses what follows `version `, trailing white space trimmed, as a `usize`; Ok with its decimal value exactly when that is digits that fit |
| Header.VersionParseLine | src/header.rs:76-87 | a `version N\n` line is valid UTF-8 and parses back to N |
| Header.VersionParseTrailingWhitespace | src/header.rs:76-87 | `version N` followed by any run of White_Space (`\r\n`, spaces, tabs) parses back to N |
| CartModel.GetSectionDelimiters | pico-8/cart-model/src/lib.rs:18-45 | the line walk accumulating the byte offset returns exactly `SectionDelimiters` |
| CartModel.ScanLines | pico-8/cart-model/src/lib.rs:18-45 | the loop over the lines for any classifier returns the recursive scan |
| CartModel.SectionDelimitersExact | pico-8/cart-model/src/lib.rs:18-45 | every delimiter is numbered index + offset + 1 and is the one its line gives: that line's type at that line's starting byte |
| CartModel.SectionDelimitersComplete | pico-8/cart-model/src/lib.rs:18-45 | every line `get_line_type` classifies has its delimiter in the result |
| CartModel.SectionDelimitersOrdered | pico-8/cart-model/src/lib.rs:18-45 | the delimiters come out in strictly increasing line order |
| CartModel.SectionDelimitersAtMarkers | pico-8/cart-model/src/lib.rs:18-45 | every byte offset points at the delimiter's marker in the source |
| CartModel.ScanDelimitersAppend | pico-8/cart-model/src/lib.rs:18-45 | scanning two runs of lines is scanning each, the second shifted by the first's lines and bytes |
| CartModel.SortByLine | pico-8/cart-model/src/lib.rs:52-53 | `sort()` returns a permutation sorted by line number |
| CartModel.SortByLineSorted | pico-8/cart-model/src/lib.rs:52-53 | delimiters already in line order come back unchanged |
| CartModel.Reverse | pico-8/cart-model/src/lib.rs:57-62 | `rev()` gives element `|s|-1-i` at index i |
| CartModel.CutRev | pico-8/cart-model/src/lib.rs:55-99 | the walk yields at most one section per delimiter, each borrowing the source |
| CartModel.CutRevStep | pico-8/cart-model/src/lib.rs:75-99 | an invalid range drops its delimiter and keeps `next_section_offset`; a valid one yields its section and moves the offset to the delimiter |
| CartModel.GetSections | pico-8/cart-model/src/lib.rs:47-100 | sorting then walking backwards returns exactly `SectionsOf` |
| CartModel.SectionsDescending | pico-8/cart-model/src/lib.rs:47-100 | the sections come out in descending line order |
| CartModel.CutRevValid | pico-8/cart-model/src/lib.rs:47-100 | when every range is valid, section i holds the bytes after delimiter i's marker line up to the next delimiter, or to the end for the last, and the list is reversed |
| CartModel.CodeTabsOf | pico-8/cart-model/src/lib.rs:157-185 | slot i is occupied exactly for the i-th `TabIter` span, holding it borrowed at its start line; later slots are None |
| CartModel.GetCodeTabsFromLuaSection | pico-8/cart-model/src/lib.rs:157-185 | the `for` loop fills the slots exactly as `CodeTabsOf`; more than sixteen spans is a precondition (index panic) |
| CartModel.TabStartClosedForm | pico-8/cart-model/src/lib.rs:163-182 | tab k, for k at least 1, starts at the start line + k + the lines of the earlier spans: the separator is counted after recording |
| CartModel.FilledTabsStep | pico-8/cart-model/src/lib.rs:168-178 | recording span k writes slot k only |
| CartModel.LastOfType | pico-8/cart-model/src/lib.rs:538-615 | the last section of a type is one of the sections with that type; None exactly when none has it |
| CartModel.FromIterLastWins | pico-8/cart-model/src/lib.rs:538-615 | after the fold every slot holds the last section of its type, the tabs come from the last Lua section, and an empty slot means no such section |
| CartModel.FromIterAssetSlot | pico-8/cart-model/src/lib.rs:538-615 | each asset slot holds the last section of its type |
| CartModel.FromIterCodeSlot | pico-8/cart-model/src/lib.rs:538-615 | a Lua section replaces all sixteen tabs; with none the tabs stay empty |
| CartModel.LastOfTypeIsEarliest | pico-8/cart-model/src/lib.rs:47-100 | over sections in descending line order, the last of a type is the one with the smallest line number |
| CartModel.BuildWith | pico-8/cart-model/src/lib.rs:620-642 | None exactly when no Gfx was seen; otherwise every slot is carried over and the header is borrowed |
| CartModel.ParseCart | pico-8/cart-model/src/lib.rs:404-427 | MalformedHeader exactly when the header split fails; on success the header is the one split off |
| CartModel.ParseCartMissingGfx | pico-8/cart-model/src/lib.rs:404-427 | MissingGfx exactly when no sliced section is Gfx |
| CartModel.ParseLineNumbersCountHeader | pico-8/cart-model/src/lib.rs:416-418 | with the offset 2, every delimiter's number is the 1-based line of its marker in the whole file, counting the header |
| CartModel.FromCartSource | pico-8/cart-model/src/lib.rs:404-427 | header split, scan, slicing, fold and build return exactly `ParseCart` |
| CartModel.SetCodeData | pico-8/cart-model/src/lib.rs:430-432 | replaces the code tabs and leaves header, label and all assets unchanged |
| CartModel.FromParts | pico-8/cart-model/src/lib.rs:260-286 | the header and tabs given, Gfx after the header's and the tabs' lines, every optional section absent; `RoundTrip.FromPartsGfxLineGap` compares that number with the line the reader gives Gfx (see Findings) |
| CartModel.IntoOwned | pico-8/cart-model/src/lib.rs:377-402 | every payload is owned afterwards, with line numbers and bytes unchanged |
| RoundTrip.IntoCartSourceLayout | pico-8/cart-model/src/lib.rs:433-511 | the output is the header, then the Lua block when the joined tab code is non-empty (under TabsOk, when any tab is occupied), Gfx, then label, gff, map, sfx and music each when present, each as marker line and data |
| RoundTrip.JoinSlotsAll | pico-8/cart-model/src/lib.rs:448-467 | with occupied tabs first, the Lua code is the tabs' code joined by `-->8\n`, and empty when no tab is occupied |
| RoundTrip.TabsRoundTrip | pico-8/cart-model/src/lib.rs:448-471 | the Lua section is written exactly when some tab is occupied; it then reads back plain, splits without panic, and slot i gets back tab i's bytes |
| RoundTrip.ScanEmit | pico-8/cart-model/src/lib.rs:18-45 | scanning written blocks finds exactly one delimiter per block, at its marker line |
| RoundTrip.CartSectionsOfEmit | pico-8/cart-model/src/lib.rs:47-100 | every range cut from written blocks is valid, and the cut is one section per block, last block first |
| RoundTrip.SectionsOfEmit | pico-8/cart-model/src/lib.rs:47-100 | section j is block `n-1-j` with its type and its payload |
| RoundTrip.MirrorsLastOfType | pico-8/cart-model/src/lib.rs:538-615 | the section the fold keeps for a type holds the payload of the first block of that type |
| RoundTrip.CartBlocksFirst | pico-8/cart-model/src/lib.rs:433-511 | each type is written at most once, with the cartridge's own payload |
| RoundTrip.HeaderRoundTrip | src/header.rs:152-177 | `split_from` cuts a well-formed header back off whatever follows it |
| RoundTrip.SectionsOfWritten | pico-8/cart-model/src/lib.rs:404-427 | reading a written cartridge splits off its header and slices its blocks back, with every Lua section splittable |
| RoundTrip.CodeLineCountOfCodes | pico-8/cart-model/src/lib.rs:266-270 | with the occupied tabs first, `lines_in_code` is the sum of the line counts of exactly the tabs `into_cart_source` writes |
| RoundTrip.JoinTabsLines | pico-8/cart-model/src/lib.rs:448-467 | newline-terminated tabs joined by `-->8` lines have their own lines plus one separator line between each two |
| RoundTrip.LuaBlockLines | pico-8/cart-model/src/lib.rs:448-471 | for k occupied tabs the written Lua section has one `__lua__` line, the tabs' lines and k-1 `-->8` lines; it has no lines when no tab is occupied |
| RoundTrip.GfxOnlyReadLine | pico-8/cart-model/src/lib.rs:17-41 | a well-formed cartridge whose only asset is Gfx reads back with Gfx numbered at the 1-based file line of its marker: the two header lines, then the Lua section's lines, then one |
| RoundTrip.FromPartsAtMarkerLineRead | pico-8/cart-model/src/lib.rs:260-286 | numbered after the header's lines and every line of the written Lua section, counting from 1, the Gfx of a built cartridge is exactly where the reader finds it again (see Findings) |
| RoundTrip.FromPartsGfxLineGap | pico-8/cart-model/src/lib.rs:265-272 | as written, `from_parts` numbers Gfx k+1 lines before the line the reader gives it back, for k occupied tabs (see Findings) |
| RoundTrip.IntoCartSourceRoundTrip | pico-8/cart-model/src/lib.rs:404-511 | a well-formed cartridge written out parses without panic or error, with the same bytes in header, gfx, label, gff, map, sfx, music and every tab |
| Lib.Fifo.FromIter | lib/src/lib.rs:100-113 | the buffer holds the values in order and the cursor is 0 |
| Lib.Fifo.IncrementedCursorValue | lib/src/lib.rs:34-47 | one past the cursor, wrapping to 0 at the end: `(cursor + 1) mod len`, always within the buffer; asked only of non-empty buffers, as its one caller `overwrite` is |
| Lib.Fifo.Iter | lib/src/lib.rs:116-124 | iterating yields `inner[cursor..]` then `inner[..cursor]`: a rotation of all `len` slots |
| Lib.Fifo.Overwrite | lib/src/lib.rs:69-74 | writes at the cursor and returns it, moves the cursor on with wrap-around, keeps every other slot; read from the cursor, the oldest element leaves and the value comes last |
| Lib.Fifo.ResetCursor | lib/src/lib.rs:86-88 | the cursor is 0 and iteration reads the buffer in order |
| Lib.ScrollBufferContiguousIter | lib/src/lib.rs:157-186 | a buffer of 0,1,2,3 reads 1,2,3,4 after writing 4 and 2,3,4,5 after writing 5 |
| Lib.GetSectionDelimiters | lib/src/lib.rs:700-739 | the scan numbers lines index + offset + 1 at their starting bytes, and the result is sorted by line number |
| Lib.LibSectionsDescending | lib/src/lib.rs:835-893 | the reverse walk of `get_from_lines` yields its sections last line first |
| Lib.Absorb | lib/src/lib.rs:895-929 | a section takes its own type's slot and leaves every other slot |
| Lib.FromIterSlot | lib/src/lib.rs:895-929 | after the fold each slot holds the last section of its type |
| Lib.Build | lib/src/lib.rs:934-954 | None exactly when the Lua or the Gfx slot is empty; otherwise every slot carried over; `src/lib.rs:345-365` does the same |
| Lib.GetFromLinesOkIff | lib/src/lib.rs:835-960 | `get_from_lines` does not panic exactly when a Lua and a Gfx section were cut |
| Lib.GetFromLines | lib/src/lib.rs:835-960 | every field holds the last section of its type in the walk |
| Lib.CodeDataOf | lib/src/lib.rs:1045-1066 | slot i holds the i-th `TabIter` span at its start line; later slots None |
| Lib.FromLuaSection | lib/src/lib.rs:1045-1066 | the loop fills the slots exactly as `CodeDataOf`; more than sixteen spans is a precondition |
| Lib.LibTabStartClosedForm | lib/src/lib.rs:1050-1063 | tab k starts at line + 1 + k + the lines of the earlier spans, one line later than the latest version for k at least 1 (separator counted before recording) |
| Lib.CollectIntoShape | lib/src/lib.rs:515-532 | data starting with `--` is returned unchanged; any other gets `-- name\n` in front; the result always starts with a comment and ends with the data; `lib/src/lib.rs:612-626` does the same with the file name, extension included, as the title |
| Lib.CollectIntoIdempotent | lib/src/lib.rs:515-532 | collecting a collected file changes nothing |
| Lib.CollectIntoLines | lib/src/lib.rs:515-532 | the title line is exactly one extra line before the file's own lines |
| Lib.SourceTabsOf | lib/src/lib.rs:253-268 | one tab per file |
| Lib.SourceTabAt | lib/src/lib.rs:253-268 | file k's tab starts at the sum of the line counts of files 0..k-1 and holds the collected file, owned |
| Lib.SourceFilesToTabs | lib/src/lib.rs:253-268 | the loop carrying the running line count returns exactly `SourceTabsOf` |
| Lib.CompileTabs | lib/src/lib.rs:271-281 | the i-th tab goes to slot i and later slots are None; more than sixteen tabs is a precondition |
| Lib.AnyTab | lib/src/lib.rs:675-677 | true exactly when some slot is occupied |
| Lib.CompileCartridge | lib/src/lib.rs:652-684 | without files the cartridge is unchanged; with files its code tabs are replaced by the compiled tabs and nothing else changes |
| Draft.SplitFrom | src/lib.rs:48-67 | None exactly when there are fewer than two newlines; otherwise the metadata ends at the second newline and the parts concatenate to the source |
| Draft.SplitFromLines | src/lib.rs:48-67 | the metadata is the first two lines and the remainder holds the other lines |
| Draft.GetVersion | src/lib.rs:32-46 | a result is at most `u32::MAX` and needs metadata that does not end in a newline |
| Draft.GetVersionOfUnterminated | src/lib.rs:32-46 | a first line followed by `version N` with no newline after it yields N: the bytes after the first space, parsed untrimmed as a `u32` |
| Draft.GetVersionOfSplitIsNone | src/lib.rs:32-67 | metadata cut off by `split_from` never yields a version (see Findings) |
| Draft.GetVersionTrimmedOfSplit | src/lib.rs:32-67 | with the newline trimmed, a terminated first line and `version N\n` are cut off together and parse back to N |
| Draft.TerminatedLinesOfLines | src/lib.rs:144-163 | the draft's lines are the terminated lines without their newlines, one per newline |
| Draft.ScanTerminated | src/lib.rs:136-235 | the draft's loop over terminated lines returns the recursive scan over them |
| Draft.GetSectionDelimiters | src/lib.rs:136-235 | the scan equals `DraftDelimiters` and is sorted by line number |
| Draft.DraftDelimitersSound | src/lib.rs:182-192 | every delimiter is the one its terminated line gives: that line's type, numbered index + offset + 1, at the given byte offset plus the earlier lines' lengths without newlines |
| Draft.DraftDelimitersComplete | src/lib.rs:182-192 | every terminated line starting with a marker has its delimiter |
| Draft.DraftDelimitersOrdered | src/lib.rs:182-233 | the scan is already in strictly increasing line order, so the sort keeps it |
| Draft.DelimiterOffsetSkipsNewlines | src/lib.rs:182-192 | on `x\n__gfx__\n` the draft reports byte 1 where the marker starts at byte 2 (see Findings) |
| Draft.PiecesConcat | src/lib.rs:487-512 | the pieces cut at separators, then the last piece, concatenate to the payload |
| Draft.PiecesSeparated | src/lib.rs:487-505 | every cut piece ends with `-->8`, its only separator |
| Draft.PiecesNone | src/lib.rs:474-484 | the loop cuts nothing exactly when the payload holds no `-->8` |
| Draft.DraftTabsWithoutSeparator | src/lib.rs:474-484 | slot 1 is used exactly when there is a separator; without one the whole payload is slot 0 at the given line |
| Draft.TabsWithoutSeparator | src/lib.rs:474-484 | without a separator the array is slot 0 holding the payload at the given line, all other slots None |
| Draft.DraftTabsReassemble | src/lib.rs:486-514 | the used slots form a prefix and their code concatenates back to the payload |
| Draft.DraftTabsCutAtSeparators | src/lib.rs:486-514 | every used slot but the last ends with its only `-->8`, and the last holds none |
| Draft.DraftTabsLines | src/lib.rs:486-514 | each slot is recorded at the start line advanced by the newlines of its own code and the code before it |
| Draft.FromLuaSection | src/lib.rs:456-566 | the `while let` loop fills exactly `DraftCodeTabsOf`; more pieces than eight slots is a precondition (index panic) |
| Cli.PushResult | cli/src/main.rs:230-238 | at capacity the front entry is returned and removed, then the new one appended; below capacity None and the length grows by one |
| Cli.PushKeepsBound | cli/src/main.rs:230-238 | with capacity at least 1 and the length within it, the length stays within it; the new entry is last and the kept ones keep their order |
| Cli.LogState.constructor | cli/src/main.rs:26-29 | the log starts empty with capacity 50 |
| Cli.LogState.Push | cli/src/main.rs:230-238 | updates the queue as `PushResult` says and keeps the capacity and the bound |
| Cli.FoldConcatIsConcat | cli/src/main.rs:248-252 | the fold of `format!("{acc}{elt}")` is the concatenation of the entries |
| Cli.RenderShowsLast | cli/src/main.rs:242-252 | the panel shows exactly the last `min(len, height)` entries, concatenated in order |
| Cli.ConfigurationValues | cli/src/args.rs:74-99 | None when `open_pico` is set without an executable, or when `src_dir` or `cart` is missing; otherwise the five fields unchanged |
| Cli.ConfigurationValuesIffCanBecomeConfig | cli/src/args.rs:56-99 | values come out exactly when `can_become_config` holds |

## Left out

- Files, directories and readers are not modelled: `get_lua_files`, the extension filters, `FromFile`, `FileData::load`/`into_loaded`, the `TryFrom<DirEntry>` impls, `try_from_reader` and all of `pico-8/cart-builder/src/lib.rs`. Their data enters as parameters (`SourceFile`, the cartridge record).
- Configuration loading (`cli/src/config.rs`) and `AppArgs::get_root_directory` read the process environment and the file system; they are not modelled.
- The terminal interface and logging plumbing are not modelled: the event loop, the rendering calls, the channel and subscriber, and every `tracing` call. `render` is modelled only for the text it shows.
- Lib.Fifo.IncrementedCursorValue: asks for a non-empty buffer, where the source returns 1 for an empty one; its only caller, `overwrite`, already needs a non-empty buffer.
- `Fifo::default`, `iter_mut` and the owning `IntoIterator` are left out. The first builds an empty buffer; the other two visit the same rotation as `iter`.
- `P8Cart::from_cart_source` in `src/lib.rs` and `lib/src/lib.rs` (header split, then `get_from_lines`, then the tab split) is not modelled as one operation; its parts are.
- The draft's `get_from_lines` cut (`src/lib.rs:239-304`) is not modelled. It slices from the marker's end, newline included, and its offsets are already wrong (see Findings). Its `build` is modelled (`Lib.Build`).
- The draft's `get_section_delimiters` takes an `io::Lines` reader that its live code never reads; the model omits it.
- `lib/src/lib.rs` also has `get_section_delimiters_v2` and `get_sections`. They are the latest version's `get_section_delimiters` and `get_sections` over the same types, and are modelled once as `CartModel.GetSectionDelimiters` and `CartModel.GetSections`.
- `lib/src/section.rs` repeats the marker table and classifier of the latest version; they are modelled once in `Section`.
- `src/section.rs` is not part of this model. The draft's `section::get_line_type`, the `Ord` it sorts `SectionDelimiter` by, and `SectionData::split_at_sequence_exclusive` (`src/lib.rs:14-15`, `181`, `233`, `475`, `488`) are taken to be the later versions': `Section.GetLineType`, the line-number order of `CartModel.SortByLine`, and `Bytes.SplitAtSequenceExclusive`.
- Cli.ConfigurationValues: takes `AppArgs` as already parsed; clap's argument parsing and its defaults are not modelled. With `default_value = "None"` on `executable` (`cli/src/args.rs:43`), an absent flag would presumably parse as `Some("None")`, so the branch for `open_pico` without an executable (`cli/src/args.rs:85-87`) may not be reachable from a real command line.
- `src/bytes.rs` repeats `find_sequence` and `split_at_sequence_exclusive` of `bytes/src/lib.rs`; they are modelled once in `Bytes`.
- `SectionType::with_data` is not part of this model: `CartModel.WithData` takes it to be the marker, a newline, then the data, as the `+ 1` in `get_sections` expects.
- `pico-8/cart-model/src/header.rs` is not part of this model. The `Header` module models `src/header.rs`, which has the same interface.
- `CartModel.SetCodeData`: modelled as a function returning the updated record, not as an update in place.
- Rust arrays of tab slots are sequences of fixed length (`CodeTabs`, `DraftCodeTabs`). `Cow` is the datatype `Borrowed | Owned`; it is kept because an owned Lua section makes the fold panic.
- Panics are preconditions: the signature line in `split_from`, `version ` in `Version::parse`, more tab spans than slots, a `-->8` at the very end of a Lua section, an owned Lua section in the fold, `expect` in `get_from_lines`, and an empty `Fifo` in `overwrite`.
- `usize` overflow is not modelled: offsets and line numbers are unbounded `nat`. The parse bounds `usize::MAX` and `u32::MAX` are kept.
- UTF-8 checks are over bytes; `trim_end` drops the ASCII white space and the Unicode white space characters of up to three bytes.
- The `fmt::Debug` impls and `debug_section_type` only format output and are left out.
- RoundTrip.IntoCartSourceRoundTrip: stated only for `WellFormed` cartridges and compares bytes only. Well-formed means a header of the signature and a newline-terminated UTF-8 version line, and occupied tabs first. It also means every payload and tab is newline-terminated with no marker line, and tabs hold no `-->8`. Line numbers are recomputed on reading and are not compared.

## Findings

| source | as written | input that shows it | evidently intended | confidence | as-written member | corrected member |
|---|---|---|---|---|---|---|
| src/lib.rs:32-46 | `get_version` parses everything after the first space of the second line as a `u32`, newline included | any source `split_from` accepts, e.g. `pico-8 cartridge // http://www.pico-8.com\nversion 42\n`: the number part is `42\n` and the parse fails | trim the line end before parsing, as `Version::parse` in `src/header.rs` does, giving 42 | not executed | Draft.GetVersionOfSplitIsNone | Draft.GetVersionTrimmedOfSplit |
| src/lib.rs:182-192 | the delimiter scan adds each line's length without its newline to the byte offset | `x\n__gfx__\n`: the marker starts at byte 2, the draft reports byte 1 | offset = start byte of the marker line, newlines counted, as the later versions compute | not executed | Draft.DelimiterOffsetSkipsNewlines | CartModel.SectionDelimitersAtMarkers |
| pico-8/cart-model/src/lib.rs:265-272 | `from_parts` numbers Gfx as the header's lines plus the occupied tabs' lines | a two-line header, one tab `x\n` and any Gfx data: `from_parts` says line 3, `into_cart_source` writes `__gfx__` on line 5 and `from_cart_source` reads it back at 5 | Gfx at the line its marker is written on, counting the `__lua__` line, the `-->8` lines and from 1, as `from_cart_source` numbers it | not executed | RoundTrip.FromPartsGfxLineGap | RoundTrip.FromPartsAtMarkerLineRead |
