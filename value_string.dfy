/** `ValueString`: the runtime's string type. The underlying UTF-8 data is shared
    between instances; each instance views a byte range of it, so sub-slicing copies
    nothing. Equality and hashing look at the viewed content only. */
module ValueStrings {
  import opened Wrappers
  import opened Utf8

  /** The shared data (`string`) and the byte range (`bounds`) of it this value covers. */
  datatype RawValueString = RawValueString(data: seq<byte>, start: nat, end: nat) {
    /** The data is text, and the bounds are a valid slice of it. */
    predicate Valid() {
      ValidUtf8(data) && start <= end <= |data|
      && IsCharBoundary(data, start) && IsCharBoundary(data, end)
    }
  }

  /** Only valid bounds are ever stored: every constructor checks them. */
  type ValueString = s: RawValueString | s.Valid() witness RawValueString([], 0, 0)

  /** `as_str`: the text within the bounds. */
  function AsStr(s: ValueString): (r: seq<byte>)
    ensures |r| == s.end - s.start
  {
    s.data[s.start..s.end]
  }

  /** The text of a string is valid UTF-8. */
  lemma AsStrValid(s: ValueString)
    ensures ValidUtf8(AsStr(s))
  {
    ValidSlice(s.data, s.start, s.end);
  }

  /** `ValueString::new`: a view of all of the data. */
  function New(data: seq<byte>): (r: ValueString)
    requires ValidUtf8(data)
    ensures AsStr(r) == data && r.data == data
  {
    RawValueString(data, 0, |data|)
  }

  /** `ValueString::empty`. */
  function Empty(): (r: ValueString)
    ensures AsStr(r) == []
  {
    New([])
  }

  /** `new_with_bounds`: Some exactly when the range is a valid slice of the data. */
  function NewWithBounds(data: seq<byte>, start: nat, end: nat): (r: Option<ValueString>)
    requires ValidUtf8(data)
    ensures r.Some? <==> start <= end <= |data| && IsCharBoundary(data, start) && IsCharBoundary(data, end)
    ensures r.Some? ==> r.value.data == data && AsStr(r.value) == data[start..end]
  {
    if StrGet(data, start, end).Some? then Some(RawValueString(data, start, end)) else None
  }

  /** A boundary of the viewed text is a boundary of the shared data, shifted by the
      start of the view. */
  lemma BoundaryShift(s: ValueString, k: nat)
    ensures k <= |AsStr(s)| ==> (IsCharBoundary(s.data, s.start + k) <==> IsCharBoundary(AsStr(s), k))
  {
    var t := AsStr(s);
    if 0 < k < |t| {
      assert t[k] == s.data[s.start + k];
    }
  }

  /** The check `with_bounds` makes on the shared data is the slice check on the view. */
  lemma WithBoundsCheck(s: ValueString, start: nat, end: nat)
    ensures (end + s.start <= s.end && StrGet(s.data, start + s.start, end + s.start).Some?)
        <==> (start <= end <= |AsStr(s)| && IsCharBoundary(AsStr(s), start) && IsCharBoundary(AsStr(s), end))
    ensures start <= end <= |AsStr(s)| ==> s.data[s.start + start..s.start + end] == AsStr(s)[start..end]
  {
    BoundaryShift(s, end);
    BoundaryShift(s, start);
    if start <= end <= |AsStr(s)| {
      SliceOfSlice(s.data, s.start, s.end, start, end);
    }
  }

  lemma SliceOfSlice(u: seq<byte>, i: nat, j: nat, a: nat, b: nat)
    requires i <= j <= |u| && a <= b <= j - i
    ensures u[i..j][a..b] == u[i + a..i + b]
  {
    assert forall k :: 0 <= k < b - a ==> u[i..j][a..b][k] == u[i + a + k];
  }

  /** `with_bounds`: a view of the same data; the new bounds are relative to this view. */
  function WithBounds(s: ValueString, start: nat, end: nat): (r: Option<ValueString>)
    ensures r.Some? <==> start <= end <= |AsStr(s)|
                         && IsCharBoundary(AsStr(s), start) && IsCharBoundary(AsStr(s), end)
    ensures r.Some? ==> r.value.data == s.data && AsStr(r.value) == AsStr(s)[start..end]
    ensures r.Some? ==> r.value.start == s.start + start && r.value.end == s.start + end
  {
    WithBoundsCheck(s, start, end);
    var newEnd := end + s.start;
    var newStart := start + s.start;
    if newEnd <= s.end && StrGet(s.data, newStart, newEnd).Some? then
      Some(RawValueString(s.data, newStart, newEnd))
    else
      None
  }

  /** `PartialEq`: two strings are equal when their texts are, whatever data they share. */
  predicate Equal(a: ValueString, b: ValueString) {
    AsStr(a) == AsStr(b)
  }

  /** `Hash`: the text is all that is fed to the hasher. */
  function Hash(s: ValueString, hasher: seq<byte> -> int): int {
    hasher(AsStr(s))
  }

  /** Equal strings hash alike, so they can be used as map keys. */
  lemma EqualHashesAlike(a: ValueString, b: ValueString, hasher: seq<byte> -> int)
    requires Equal(a, b)
    ensures Hash(a, hasher) == Hash(b, hasher)
  {
  }

  /** A sub-slice equals a fresh string made of the same text. */
  lemma SliceEqualsCopy(s: ValueString, start: nat, end: nat)
    requires WithBounds(s, start, end).Some?
    ensures ValidUtf8(AsStr(s)[start..end])
    ensures Equal(WithBounds(s, start, end).value, New(AsStr(s)[start..end]))
  {
    AsStrValid(WithBounds(s, start, end).value);
  }

  /** Taking the whole range gives back the same string. */
  lemma WithBoundsWhole(s: ValueString)
    ensures WithBounds(s, 0, |AsStr(s)|) == Some(s)
  {
  }

  /** Nested `with_bounds` calls compose by adding offsets. */
  lemma WithBoundsCompose(s: ValueString, a: nat, b: nat, c: nat, d: nat)
    requires WithBounds(s, a, b).Some? && d <= b - a
    ensures WithBounds(WithBounds(s, a, b).value, c, d) == WithBounds(s, a + c, a + d)
  {
    var t := WithBounds(s, a, b).value;
    ComposeDefined(s, t, a, b, c, d);
    var r1, r2 := WithBounds(t, c, d), WithBounds(s, a + c, a + d);
    if r1.Some? {
      var x, y := r1.value, r2.value;
      assert x.data == y.data && x.start == y.start && x.end == y.end;
    }
  }

  lemma ComposeDefined(s: ValueString, t: ValueString, a: nat, b: nat, c: nat, d: nat)
    requires WithBounds(s, a, b) == Some(t) && d <= b - a
    ensures WithBounds(t, c, d).Some? <==> WithBounds(s, a + c, a + d).Some?
  {
    var u := AsStr(s);
    if c <= d {
      SubBoundary(u, a, b, c);
      SubBoundary(u, a, b, d);
    }
  }

  /** Within a slice cut on char boundaries, the char boundaries are those of the whole
      text, shifted. */
  lemma SubBoundary(u: seq<byte>, a: nat, b: nat, c: nat)
    requires a <= b <= |u| && IsCharBoundary(u, a) && IsCharBoundary(u, b) && c <= b - a
    ensures IsCharBoundary(u[a..b], c) <==> IsCharBoundary(u, a + c)
  {
    if 0 < c < b - a {
      assert u[a..b][c] == u[a + c];
    }
  }

  // Graphemes. Extended grapheme clustering (Unicode Standard Annex #29) is not
  // computed here: a segmentation is given as the byte offsets at which the
  // graphemes of a text start.

  /** `g` splits `text` into non-empty graphemes, each starting on a char boundary. */
  predicate IsSegmentation(text: seq<byte>, g: seq<nat>) {
    && (|g| == 0 <==> |text| == 0)
    && (|g| > 0 ==> g[0] == 0)
    && (forall i, j :: 0 <= i < j < |g| ==> g[i] < g[j])
    && (forall i :: 0 <= i < |g| ==> g[i] < |text| && IsCharBoundary(text, g[i]))
  }

  /** The byte offset at which grapheme `k` starts, or the end of the text for `k == |g|`. */
  function Offset(text: seq<byte>, g: seq<nat>, k: nat): nat
    requires k <= |g|
  {
    if k < |g| then g[k] else |text|
  }

  lemma OffsetFacts(text: seq<byte>, g: seq<nat>, k: nat, m: nat)
    requires IsSegmentation(text, g) && k <= m <= |g|
    ensures Offset(text, g, k) <= Offset(text, g, m) <= |text|
    ensures IsCharBoundary(text, Offset(text, g, k))
    ensures k < m ==> Offset(text, g, k) < Offset(text, g, m)
  {
    OffsetsIncrease(text, g, k, m);
  }

  /** Offsets increase with the grapheme index. */
  lemma OffsetsIncrease(text: seq<byte>, g: seq<nat>, k: nat, m: nat)
    requires IsSegmentation(text, g) && k <= m <= |g|
    ensures Offset(text, g, k) <= Offset(text, g, m) <= |text|
    ensures k < m ==> Offset(text, g, k) < Offset(text, g, m)
  {
  }

  /** Grapheme `i` of `text`. */
  function Grapheme(text: seq<byte>, g: seq<nat>, i: nat): (r: seq<byte>)
    requires IsSegmentation(text, g) && i < |g|
    ensures |r| > 0
  {
    OffsetFacts(text, g, i, i + 1);
    text[Offset(text, g, i)..Offset(text, g, i + 1)]
  }

  /** Graphemes `a` up to (not including) `b`, joined. */
  function JoinGraphemes(text: seq<byte>, g: seq<nat>, a: nat, b: nat): seq<byte>
    requires IsSegmentation(text, g) && a <= b <= |g|
    decreases b - a
  {
    if a == b then [] else Grapheme(text, g, a) + JoinGraphemes(text, g, a + 1, b)
  }

  lemma SliceConcat(s: seq<byte>, lo: nat, mid: nat, hi: nat)
    requires lo <= mid <= hi <= |s|
    ensures s[lo..mid] + s[mid..hi] == s[lo..hi]
  {
  }

  /** Joining consecutive graphemes gives back the text between their offsets. */
  lemma {:induction false} JoinGraphemesIsSlice(text: seq<byte>, g: seq<nat>, a: nat, b: nat)
    requires IsSegmentation(text, g) && a <= b <= |g|
    ensures JoinGraphemes(text, g, a, b) == text[Offset(text, g, a)..Offset(text, g, b)]
    decreases b - a
  {
    if a < b {
      var lo, mid, hi := Offset(text, g, a), Offset(text, g, a + 1), Offset(text, g, b);
      OffsetsIncrease(text, g, a, a + 1);
      OffsetsIncrease(text, g, a + 1, b);
      JoinGraphemesIsSlice(text, g, a + 1, b);
      var x, y := Grapheme(text, g, a), JoinGraphemes(text, g, a + 1, b);
      assert x == text[lo..mid];
      assert y == text[mid..hi];
      assert JoinGraphemes(text, g, a, b) == x + y;
      SliceConcat(text, lo, mid, hi);
    }
  }

  /** Offsets grow by at least one byte per grapheme. */
  lemma {:induction false} OffsetAtLeastIndex(text: seq<byte>, g: seq<nat>, k: nat)
    requires IsSegmentation(text, g) && k < |g|
    ensures g[k] >= k
  {
    if k > 0 {
      OffsetAtLeastIndex(text, g, k - 1);
    }
  }

  /** A text has no more graphemes than bytes. */
  lemma CountAtMostLength(text: seq<byte>, g: seq<nat>)
    requires IsSegmentation(text, g)
    ensures |g| <= |text|
  {
    if |g| > 0 {
      OffsetAtLeastIndex(text, g, |g| - 1);
    }
  }

  /** `grapheme_count`: never more graphemes than bytes, and none only for the empty string. */
  function GraphemeCount(s: ValueString, g: seq<nat>): (r: nat)
    requires IsSegmentation(AsStr(s), g)
    ensures r <= |AsStr(s)|
    ensures r == 0 <==> AsStr(s) == []
  {
    CountAtMostLength(AsStr(s), g);
    |g|
  }

  /** The grapheme index at which a slice ends: `end`, or the grapheme count. */
  function EndIndex(g: seq<nat>, end: Option<nat>): nat {
    if end.Some? then end.value else |g|
  }

  /** Slicing by grapheme indices as the comments of `with_grapheme_indices` describe
      it: graphemes `start` up to `end` (or to the end), where indexing one past the
      last grapheme is allowed and `start == end` gives the empty string. */
  function GraphemeSlice(s: ValueString, g: seq<nat>, start: nat, end: Option<nat>): (r: Option<ValueString>)
    requires IsSegmentation(AsStr(s), g)
    ensures r.Some? <==> start <= EndIndex(g, end) <= |g|
    ensures r.Some? ==> AsStr(r.value) == JoinGraphemes(AsStr(s), g, start, EndIndex(g, end))
  {
    var text, e := AsStr(s), EndIndex(g, end);
    if start <= e <= |g| then
      OffsetFacts(text, g, start, e);
      JoinGraphemesIsSlice(text, g, start, e);
      WithBounds(s, Offset(text, g, start), Offset(text, g, e))
    else
      None
  }

  /** Two optional strings are both absent, or both present with equal texts. */
  predicate SameContent(a: Option<ValueString>, b: Option<ValueString>) {
    a.Some? == b.Some? && (a.Some? ==> Equal(a.value, b.value))
  }

  /** `with_grapheme_indices`, as written: one pass over the graphemes, recording the
      byte offset after grapheme `start - 1` and after grapheme `end - 1`. The loop
      compares the grapheme index with `end_unwrapped - 1` in `usize`; for
      `end == Some(0)` that subtraction wraps around to `usize::MAX`, which no index
      reaches, so such a call returns None (a debug build panics instead). The
      `debug_assert!(start <= end)` is not active either: a start after the end
      gives None. */
  method WithGraphemeIndices(s: ValueString, g: seq<nat>, start: nat, end: Option<nat>)
    returns (r: Option<ValueString>)
    requires IsSegmentation(AsStr(s), g)
    ensures end != Some(0) ==> SameContent(r, GraphemeSlice(s, g, start, end))
    ensures end == Some(0) ==> r.None?
  {
    var text := AsStr(s);
    var n := |g|;
    // `self.len()` is the byte length, not the grapheme count
    var endUnwrapped := if end.Some? then end.value else |text|;
    CountAtMostLength(text, g);

    var resultStart: Option<nat> := if start == 0 then Some(0) else None;
    var resultEnd: Option<nat> := None;
    var i := 0;
    while i < n
      invariant 0 <= i <= n
      invariant resultEnd.None?
      invariant resultStart == if start == 0 then Some(0)
                               else if start <= i then Some(Offset(text, g, start)) else None
      invariant endUnwrapped >= 1 ==> i <= endUnwrapped - 1
      invariant end.None? && 1 <= start <= n ==> i <= start - 1
    {
      // grapheme_start + grapheme.len()
      var graphemeEnd := Offset(text, g, i + 1);
      if resultStart.None? && i == start - 1 {
        resultStart := Some(graphemeEnd);
        if end.None? {
          break;
        }
      }
      if endUnwrapped >= 1 && i == endUnwrapped - 1 {
        if start == endUnwrapped {
          EmptySlice(s, g, start, end);
          return Some(Empty());
        }
        resultEnd := Some(graphemeEnd);
        break;
      }
      i := i + 1;
    }

    var lo, hi;
    match (resultStart, resultEnd) {
      case (Some(a), Some(b)) =>
        assert end != Some(0) ==> a == Offset(text, g, start) && b == Offset(text, g, EndIndex(g, end));
        lo, hi := a, b;
      case (Some(a), None) =>
        if end.None? {
          assert a == Offset(text, g, start) && |text| == Offset(text, g, EndIndex(g, end));
          lo, hi := a, |text|;
        } else {
          return None;
        }
      case _ =>
        return None;
    }
    r := WithBounds(s, lo, hi);
    if end != Some(0) {
      SliceAtOffsets(s, g, start, end);
    }
  }

  /** A grapheme slice is the view between the offsets of its first and end graphemes. */
  lemma SliceAtOffsets(s: ValueString, g: seq<nat>, start: nat, end: Option<nat>)
    requires IsSegmentation(AsStr(s), g) && start <= EndIndex(g, end) <= |g|
    ensures var text := AsStr(s);
      SameContent(WithBounds(s, Offset(text, g, start), Offset(text, g, EndIndex(g, end))),
                  GraphemeSlice(s, g, start, end))
  {
  }

  /** A grapheme slice that ends where it starts is empty. */
  lemma EmptySlice(s: ValueString, g: seq<nat>, k: nat, end: Option<nat>)
    requires IsSegmentation(AsStr(s), g) && k == EndIndex(g, end) <= |g|
    ensures SameContent(Some(Empty()), GraphemeSlice(s, g, k, end))
  {
    assert JoinGraphemes(AsStr(s), g, k, k) == [];
  }

  /** The example in the comments of `with_grapheme_indices`: `'xyz'[1..3] == 'yz'`. */
  lemma OnePastTheEnd()
    ensures GraphemeSlice(New([0x78, 0x79, 0x7A]), [0, 1, 2], 1, Some(3)).Some?
    ensures AsStr(GraphemeSlice(New([0x78, 0x79, 0x7A]), [0, 1, 2], 1, Some(3)).value) == [0x79, 0x7A]
  {
    var text: seq<byte> := [0x78, 0x79, 0x7A];
    JoinGraphemesIsSlice(text, [0, 1, 2], 1, 3);
  }
}
