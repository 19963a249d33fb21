/**
 * The command-line front end: the bounded log queue behind the log panel,
 * the window of log lines the panel shows, and the check that the
 * command-line arguments alone configure a run.
 */
module Cli {
  import opened Wrappers

  // ---------------------------------------------------------------------
  // LogState
  // ---------------------------------------------------------------------

  /** The capacity `main` gives the log queue. */
  const LOG_CAPACITY: nat := 50

  /**
   * What `push` does to a queue `buf` of capacity `cap`: when full, the
   * front entry is popped and returned (`pop_front` on an empty queue,
   * possible only when `cap` is 0, returns nothing); then `elt` goes to the back.
   */
  function PushResult(buf: seq<string>, cap: nat, elt: string): (r: (Option<string>, seq<string>))
    ensures |buf| != cap ==> r.0.None? && r.1 == buf + [elt]
    ensures |buf| == cap && buf != [] ==> r.0 == Some(buf[0]) && r.1 == buf[1..] + [elt]
    ensures |buf| == cap && buf == [] ==> r.0.None? && r.1 == [elt]
  {
    var ret := if cap == |buf| then (if buf == [] then None else Some(buf[0])) else None;
    var popped := if cap == |buf| && buf != [] then buf[1..] else buf;
    (ret, popped + [elt])
  }

  /**
   * A push keeps a queue within a positive capacity, puts `elt` last and
   * keeps the surviving entries in order: the new queue is a suffix of the
   * old one followed by `elt`, and at most the front entry is dropped.
   */
  lemma {:induction false} PushKeepsBound(buf: seq<string>, cap: nat, elt: string)
    requires 1 <= cap && |buf| <= cap
    ensures |PushResult(buf, cap, elt).1| <= cap
    ensures |PushResult(buf, cap, elt).1| == (if |buf| == cap then |buf| else |buf| + 1)
    ensures PushResult(buf, cap, elt).1[|PushResult(buf, cap, elt).1| - 1] == elt
    ensures PushResult(buf, cap, elt).1[..|PushResult(buf, cap, elt).1| - 1]
            == buf[|buf| + 1 - |PushResult(buf, cap, elt).1|..]
  {
    var r := PushResult(buf, cap, elt).1;
    assert r[..|r| - 1] == if |buf| == cap then buf[1..] else buf;
  }

  /** `LogState`: the log lines kept for the panel, at most `cap` of them. */
  class LogState {
    var buf: seq<string>
    var cap: nat

    /** `main` builds the state with an empty queue of capacity 50. */
    constructor ()
      ensures buf == [] && cap == LOG_CAPACITY
    {
      buf := [];
      cap := LOG_CAPACITY;
    }

    predicate Valid()
      reads this
    {
      1 <= cap && |buf| <= cap
    }

    /** `push`: drops the front entry when full, then appends `elt`. */
    method Push(elt: string) returns (ret: Option<string>)
      modifies this
      ensures (ret, buf) == PushResult(old(buf), old(cap), elt)
      ensures cap == old(cap)
      ensures old(Valid()) ==> Valid()
    {
      if cap == |buf| {
        if buf == [] {
          ret := None;
        } else {
          ret := Some(buf[0]);
          buf := buf[1..];
        }
      } else {
        ret := None;
      }
      buf := buf + [elt];
      if old(Valid()) {
        PushKeepsBound(old(buf), cap, elt);
      }
    }
  }

  // ---------------------------------------------------------------------
  // The log panel
  // ---------------------------------------------------------------------

  /** The entries, concatenated front to back. */
  function ConcatAll(entries: seq<string>): string
  {
    if entries == [] then "" else entries[0] + ConcatAll(entries[1..])
  }

  /** `fold(String::default(), |acc, elt| format!("{acc}{elt}"))`. */
  function FoldConcat(acc: string, entries: seq<string>): string
    decreases |entries|
  {
    if entries == [] then acc else FoldConcat(acc + entries[0], entries[1..])
  }

  lemma {:induction false} FoldConcatIsConcat(acc: string, entries: seq<string>)
    ensures FoldConcat(acc, entries) == acc + ConcatAll(entries)
    decreases |entries|
  {
    if entries != [] {
      FoldConcatIsConcat(acc + entries[0], entries[1..]);
    }
  }

  /** `len.checked_sub(height).unwrap_or_default()`: how many entries scroll off the top. */
  function AmountOffScreen(len: nat, height: nat): nat
  {
    if len >= height then len - height else 0
  }

  /** The text `render` puts in the panel: the entries after the ones off screen. */
  function RenderText(buf: seq<string>, height: nat): string
  {
    FoldConcat("", buf[AmountOffScreen(|buf|, height)..])
  }

  /** The panel shows exactly the last `min(len, height)` entries, in order. */
  lemma {:induction false} RenderShowsLast(buf: seq<string>, height: nat)
    ensures var shown := if |buf| <= height then |buf| else height;
            RenderText(buf, height) == ConcatAll(buf[|buf| - shown..])
  {
    FoldConcatIsConcat("", buf[AmountOffScreen(|buf|, height)..]);
  }

  // ---------------------------------------------------------------------
  // AppArgs
  // ---------------------------------------------------------------------

  /** The parsed command-line arguments; paths are kept as strings. */
  datatype AppArgs = AppArgs(
    rootDirectory: Option<string>,
    srcDir: Option<string>,
    cart: Option<string>,
    watch: bool,
    openPico: bool,
    executable: Option<string>)

  /** `can_become_config`: the arguments alone configure a run. */
  predicate CanBecomeConfig(a: AppArgs)
  {
    var requiredValuesSet := a.srcDir.Some? && a.cart.Some?;
    var validExecutableState := if a.openPico then a.executable.Some? else true;
    requiredValuesSet && validExecutableState
  }

  /** `configuration_values`: source directory, cart, watch, open-pico and executable. */
  function ConfigurationValues(a: AppArgs): (r: Option<(string, string, bool, bool, Option<string>)>)
    ensures a.openPico && a.executable.None? ==> r.None?
    ensures a.srcDir.None? || a.cart.None? ==> r.None?
    ensures r.Some? ==> r.value == (a.srcDir.value, a.cart.value, a.watch, a.openPico, a.executable)
  {
    if a.openPico && a.executable.None? then None
    else if a.srcDir.None? then None
    else if a.cart.None? then None
    else Some((a.srcDir.value, a.cart.value, a.watch, a.openPico, a.executable))
  }

  /** The two checks agree: values come out exactly when the arguments can become a configuration. */
  lemma {:induction false} ConfigurationValuesIffCanBecomeConfig(a: AppArgs)
    ensures ConfigurationValues(a).Some? <==> CanBecomeConfig(a)
  {
  }
}
