/**
 * The section kinds of a `.p8` cartridge, their marker lines, the line
 * classifier, section delimiters and sections. The marker table and the
 * classifier are the same in the latest cart model and in the second
 * version, so both are modelled here once.
 */
module Section {
  import opened Wrappers
  import opened Bytes

  datatype SectionType = Lua | Gfx | Gff | Label | Map | Sfx | Music

  const UNDERSCORE: Byte := 0x5F

  /** The marker line that opens a section of type `t` (without its newline). */
  function Marker(t: SectionType): (r: seq<Byte>)
    ensures 7 <= |r| <= 9
    ensures r[0] == UNDERSCORE && r[1] == UNDERSCORE
    ensures NEWLINE !in r
  {
    match t
    case Lua => Ascii("__lua__")
    case Gfx => Ascii("__gfx__")
    case Gff => Ascii("__gff__")
    case Label => Ascii("__label__")
    case Map => Ascii("__map__")
    case Sfx => Ascii("__sfx__")
    case Music => Ascii("__music__")
  }

  /** The order in which `get_line_type` tries the types. */
  const SECTION_TYPES: seq<SectionType> := [Lua, Gfx, Gff, Label, Map, Sfx, Music]

  lemma {:induction false} DifferAt(a: seq<Byte>, b: seq<Byte>, i: nat)
    requires i < |a| && i < |b| && a[i] != b[i]
    ensures !(a <= b) && !(b <= a)
  {
  }

  /** The seven markers are pairwise distinct and none is a prefix of another. */
  lemma {:induction false} MarkersPrefixFree(t: SectionType, u: SectionType)
    requires t != u
    ensures !(Marker(t) <= Marker(u))
  {
    var a, b := Marker(t), Marker(u);
    if a[2] != b[2] {
      DifferAt(a, b, 2);
    } else if a[3] != b[3] {
      DifferAt(a, b, 3);
    } else {
      DifferAt(a, b, 4);
    }
  }

  /** The position of `t` in `SECTION_TYPES`. */
  function Rank(t: SectionType): (k: nat)
    ensures k < |SECTION_TYPES| && SECTION_TYPES[k] == t
  {
    match t
    case Lua => 0
    case Gfx => 1
    case Gff => 2
    case Label => 3
    case Map => 4
    case Sfx => 5
    case Music => 6
  }

  /** `find` over a table of types: the first whose marker starts `line`. */
  function FindType(types: seq<SectionType>, line: seq<Byte>): (r: Option<SectionType>)
    ensures r.Some? ==> r.value in types && Marker(r.value) <= line
    ensures r.None? <==> forall k | 0 <= k < |types| :: !(Marker(types[k]) <= line)
  {
    if types == [] then None
    else if Marker(types[0]) <= line then Some(types[0])
    else
      var r := FindType(types[1..], line);
      assert forall k | 1 <= k < |types| :: types[k] == types[1..][k - 1];
      r
  }

  /**
   * `get_line_type`: the first type, in table order, whose marker starts
   * the line (written out per type; `GetLineTypeIsFind` ties it to the table).
   */
  function GetLineType(line: seq<Byte>): (r: Option<SectionType>)
    ensures r.Some? ==> Marker(r.value) <= line
  {
    if Marker(Lua) <= line then Some(Lua)
    else if Marker(Gfx) <= line then Some(Gfx)
    else if Marker(Gff) <= line then Some(Gff)
    else if Marker(Label) <= line then Some(Label)
    else if Marker(Map) <= line then Some(Map)
    else if Marker(Sfx) <= line then Some(Sfx)
    else if Marker(Music) <= line then Some(Music)
    else None
  }

  /** A line is left unclassified exactly when no marker starts it. */
  lemma {:induction false} GetLineTypeNone(line: seq<Byte>)
    ensures GetLineType(line).None? <==> forall t :: !(Marker(t) <= line)
  {
    if GetLineType(line).None? {
      forall t ensures !(Marker(t) <= line) {
        match t
        case Lua =>
        case Gfx =>
        case Gff =>
        case Label =>
        case Map =>
        case Sfx =>
        case Music =>
      }
    }
  }

  /** The classifier is `find` over `SECTION_TYPES`. */
  lemma {:induction false} GetLineTypeIsFind(line: seq<Byte>)
    ensures GetLineType(line) == FindType(SECTION_TYPES, line)
  {
    FindTypeStep([Music], line);
    FindTypeStep([Sfx, Music], line);
    FindTypeStep([Map, Sfx, Music], line);
    FindTypeStep([Label, Map, Sfx, Music], line);
    FindTypeStep([Gff, Label, Map, Sfx, Music], line);
    FindTypeStep([Gfx, Gff, Label, Map, Sfx, Music], line);
    FindTypeStep(SECTION_TYPES, line);
  }

  lemma {:induction false} FindTypeStep(types: seq<SectionType>, line: seq<Byte>)
    requires types != []
    ensures FindType(types, line) == if Marker(types[0]) <= line then Some(types[0]) else FindType(types[1..], line)
  {
  }

  /**
   * Because the markers are prefix-free, the first match is the only
   * match: a line is classified as `t` exactly when it starts with `t`'s marker.
   */
  lemma {:induction false} GetLineTypeExact(line: seq<Byte>, t: SectionType)
    ensures GetLineType(line) == Some(t) <==> Marker(t) <= line
  {
    var r := GetLineType(line);
    if Marker(t) <= line && r != Some(t) {
      var u := r.value;
      assert Marker(u) <= line;
      if |Marker(u)| <= |Marker(t)| {
        assert Marker(u) <= Marker(t);
        MarkersPrefixFree(u, t);
      } else {
        assert Marker(t) <= Marker(u);
        MarkersPrefixFree(t, u);
      }
    }
  }

  /** A marker followed by anything is classified as that marker's type. */
  lemma {:induction false} GetLineTypeOfMarker(t: SectionType, rest: seq<Byte>)
    ensures GetLineType(Marker(t) + rest) == Some(t)
  {
    GetLineTypeExact(Marker(t) + rest, t);
  }

  // ---------------------------------------------------------------------
  // Delimiters
  // ---------------------------------------------------------------------

  /** Where a section starts: its type, its line number and the byte offset of its marker line. */
  datatype SectionDelimiter = SectionDelimiter(sectionType: SectionType, lineNumber: nat, byteOffset: nat)

  /** `Ord for SectionDelimiter`: by line number alone. */
  function CompareDelimiters(a: SectionDelimiter, b: SectionDelimiter): (r: Ordering)
    ensures r == Less <==> a.lineNumber < b.lineNumber
    ensures r == Equal <==> a.lineNumber == b.lineNumber
    ensures r == Greater <==> a.lineNumber > b.lineNumber
  {
    CompareNat(a.lineNumber, b.lineNumber)
  }

  // ---------------------------------------------------------------------
  // Sections
  // ---------------------------------------------------------------------

  /** `Cow<[u8]>`: borrowed from the cartridge source, or an owned copy. */
  datatype Cow = Borrowed(bytes: seq<Byte>) | Owned(bytes: seq<Byte>)

  /**
   * `Section`: one variant per type, each with its line number and data.
   * The shared destructors `lineNumber` and `sectionData` are the
   * accessors `line_number()` and `data()`.
   */
  datatype Section =
    | LuaSection(lineNumber: nat, sectionData: Cow)
    | GfxSection(lineNumber: nat, sectionData: Cow)
    | GffSection(lineNumber: nat, sectionData: Cow)
    | LabelSection(lineNumber: nat, sectionData: Cow)
    | MapSection(lineNumber: nat, sectionData: Cow)
    | SfxSection(lineNumber: nat, sectionData: Cow)
    | MusicSection(lineNumber: nat, sectionData: Cow)

  /** `get_type`. */
  function GetType(s: Section): SectionType
  {
    match s
    case LuaSection(_, _) => Lua
    case GfxSection(_, _) => Gfx
    case GffSection(_, _) => Gff
    case LabelSection(_, _) => Label
    case MapSection(_, _) => Map
    case SfxSection(_, _) => Sfx
    case MusicSection(_, _) => Music
  }

  /** `new_inner`: the variant for `t`, holding `n` and `data`. */
  function NewInner(t: SectionType, n: nat, data: Cow): (r: Section)
    ensures GetType(r) == t && r.lineNumber == n && r.sectionData == data
  {
    match t
    case Lua => LuaSection(n, data)
    case Gfx => GfxSection(n, data)
    case Gff => GffSection(n, data)
    case Label => LabelSection(n, data)
    case Map => MapSection(n, data)
    case Sfx => SfxSection(n, data)
    case Music => MusicSection(n, data)
  }

  /** `Section::new`: a section borrowing `data`. */
  function New(t: SectionType, n: nat, data: seq<Byte>): (r: Section)
    ensures GetType(r) == t && r.lineNumber == n && r.sectionData == Borrowed(data)
  {
    NewInner(t, n, Borrowed(data))
  }

  /** `Section::into_owned`: same type, line number and bytes, now owned. */
  function IntoOwned(s: Section): (r: Section)
    ensures GetType(r) == GetType(s) && r.lineNumber == s.lineNumber
    ensures r.sectionData == Owned(s.sectionData.bytes)
  {
    NewInner(GetType(s), s.lineNumber, Owned(s.sectionData.bytes))
  }

  /** `Ord for Section`: by line number alone. */
  function CompareSections(a: Section, b: Section): (r: Ordering)
    ensures r == Less <==> a.lineNumber < b.lineNumber
    ensures r == Equal <==> a.lineNumber == b.lineNumber
    ensures r == Greater <==> a.lineNumber > b.lineNumber
  {
    CompareNat(a.lineNumber, b.lineNumber)
  }

  /** A section is determined by its type, line number and data. */
  lemma {:induction false} SectionDeterminedByParts(a: Section, b: Section)
    requires GetType(a) == GetType(b) && a.lineNumber == b.lineNumber && a.sectionData == b.sectionData
    ensures a == b
  {
  }
}
