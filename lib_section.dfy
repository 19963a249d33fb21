/**
 * The section helpers of the second version. Its marker table, classifier,
 * delimiter ordering and `Section::into_owned` are the ones the `Section`
 * module models; what it adds is the `SectionData` byte wrapper with its
 * owned copy and its split at a byte sequence.
 */
module LibSection {
  import opened Wrappers
  import opened Bytes

  /** `SectionDataBuf`: the boxed, owned copy of a section's bytes. */
  datatype SectionDataBuf = SectionDataBuf(boxed: seq<Byte>)

  /** `SectionData::to_owned`: boxes a copy of the bytes. */
  function ToOwned(data: seq<Byte>): (r: SectionDataBuf)
    ensures |r.boxed| == |data|
    ensures forall i | 0 <= i < |data| :: r.boxed[i] == data[i]
  {
    SectionDataBuf(data[..])
  }

  /** `Deref for SectionDataBuf`: the boxed bytes, viewed as section data again. */
  function Deref(buf: SectionDataBuf): seq<Byte>
  {
    buf.boxed
  }

  /** Copying and viewing the copy gives the original bytes back. */
  lemma {:induction false} ToOwnedDeref(data: seq<Byte>)
    ensures Deref(ToOwned(data)) == data
  {
    var r := ToOwned(data);
    assert forall i | 0 <= i < |data| :: Deref(r)[i] == data[i];
  }

  /**
   * `SectionData::split_at_sequence_exclusive`: the byte split of
   * `split_at_sequence_exclusive` on the section's bytes, kept as section
   * data. It fails exactly when `pattern` does not occur; otherwise the
   * first part runs through the leftmost occurrence and the parts
   * concatenate to the data.
   */
  function SplitAtSequenceExclusive(data: seq<Byte>, pattern: seq<Byte>): (r: Option<(seq<Byte>, seq<Byte>)>)
    requires |pattern| > 0
    ensures r.None? <==> !Contains(data, pattern)
    ensures r.Some? ==> r.value.0 + r.value.1 == data
    ensures r.Some? ==> OccursAt(r.value.0, pattern, |r.value.0| - |pattern|)
    ensures r.Some? ==> forall j | 0 <= j < |r.value.0| - |pattern| :: !OccursAt(data, pattern, j)
  {
    var split := Bytes.SplitAtSequenceExclusive(data, pattern);
    if split.Some? then
      var a := split.value.0;
      assert forall j | 0 <= j < |a| - |pattern| :: OccursAt(data, pattern, j) ==> OccursAt(a, pattern, j);
      split
    else
      split
  }
}
