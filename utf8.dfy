/** UTF-8 byte strings, as the runtime's `str` data sees them: the well-formed
    sequences of section 4 of RFC 3629, character boundaries, code points and the
    `White_Space` property used by `char::is_whitespace`. */
module Utf8 {
  import opened Wrappers

  /** One byte of encoded string data. */
  type byte = b: int | 0 <= b < 256

  /** A byte that can only continue a multi-byte sequence (UTF8-tail). */
  predicate IsContinuation(b: byte) {
    0x80 <= b <= 0xBF
  }

  function Tail3(s: seq<byte>, lo: byte, hi: byte): nat {
    if |s| >= 3 && lo <= s[1] <= hi && IsContinuation(s[2]) then 3 else 0
  }

  function Tail4(s: seq<byte>, lo: byte, hi: byte): nat {
    if |s| >= 4 && lo <= s[1] <= hi && IsContinuation(s[2]) && IsContinuation(s[3]) then 4 else 0
  }

  /** The length of the well-formed sequence (UTF8-char) at the head of `s`, or 0 when
      `s` does not start with one. */
  function CharWidth(s: seq<byte>): (w: nat)
    ensures w <= 4 && w <= |s|
    ensures w > 0 ==> !IsContinuation(s[0])
  {
    if |s| == 0 then 0
    else if s[0] <= 0x7F then 1
    else if 0xC2 <= s[0] <= 0xDF then (if |s| >= 2 && IsContinuation(s[1]) then 2 else 0)
    else if s[0] == 0xE0 then Tail3(s, 0xA0, 0xBF)
    else if 0xE1 <= s[0] <= 0xEC || 0xEE <= s[0] <= 0xEF then Tail3(s, 0x80, 0xBF)
    else if s[0] == 0xED then Tail3(s, 0x80, 0x9F)
    else if s[0] == 0xF0 then Tail4(s, 0x90, 0xBF)
    else if 0xF1 <= s[0] <= 0xF3 then Tail4(s, 0x80, 0xBF)
    else if s[0] == 0xF4 then Tail4(s, 0x80, 0x8F)
    else 0
  }

  /** `s` is a sequence of well-formed UTF-8 characters (UTF8-octets). */
  predicate ValidUtf8(s: seq<byte>)
    decreases |s|
  {
    |s| == 0 || (CharWidth(s) > 0 && ValidUtf8(s[CharWidth(s)..]))
  }

  /** `str::is_char_boundary`: the start, the end, or a byte that is not a UTF8-tail. */
  predicate IsCharBoundary(s: seq<byte>, i: nat) {
    i == 0 || i == |s| || (i < |s| && !IsContinuation(s[i]))
  }

  /** `str::get(a..b)`: the sub-slice when both ends are in order and on char boundaries. */
  function StrGet(s: seq<byte>, a: nat, b: nat): (r: Option<seq<byte>>)
    ensures r.Some? <==> a <= b <= |s| && IsCharBoundary(s, a) && IsCharBoundary(s, b)
    ensures r.Some? ==> r.value == s[a..b]
  {
    if a <= b && IsCharBoundary(s, a) && IsCharBoundary(s, b) then Some(s[a..b]) else None
  }

  /** The width depends only on the bytes it covers. */
  lemma CharWidthPrefix(s: seq<byte>, t: seq<byte>)
    requires CharWidth(s) > 0 && CharWidth(s) <= |t| && t[..CharWidth(s)] == s[..CharWidth(s)]
    ensures CharWidth(t) == CharWidth(s)
  {
    var w := CharWidth(s);
    assert t[0] == s[0];
    assert w >= 2 ==> t[1] == s[1];
    assert w >= 3 ==> t[2] == s[2];
    assert w >= 4 ==> t[3] == s[3];
  }

  /** The bytes after the first of a character are UTF8-tails. */
  lemma CharWidthTails(s: seq<byte>, i: nat)
    requires 1 <= i < CharWidth(s)
    ensures IsContinuation(s[i])
  {
  }

  /** A boundary other than 0 lies at or after the end of the first character. */
  lemma BoundaryAfterFirstChar(s: seq<byte>, i: nat)
    requires CharWidth(s) > 0 && 0 < i <= |s| && IsCharBoundary(s, i)
    ensures i >= CharWidth(s)
  {
    if i < CharWidth(s) {
      CharWidthTails(s, i);
    }
  }

  /** Cutting valid text at a char boundary leaves valid text after the cut. */
  lemma {:induction false} ValidSuffix(s: seq<byte>, a: nat)
    requires ValidUtf8(s) && a <= |s| && IsCharBoundary(s, a)
    ensures ValidUtf8(s[a..])
    decreases |s|
  {
    if a > 0 {
      var w := CharWidth(s);
      BoundaryAfterFirstChar(s, a);
      var rest := s[w..];
      assert IsCharBoundary(rest, a - w);
      ValidSuffix(rest, a - w);
      assert rest[a - w..] == s[a..];
    }
  }

  /** Cutting valid text at a char boundary leaves valid text before the cut. */
  lemma {:induction false} ValidPrefix(s: seq<byte>, b: nat)
    requires ValidUtf8(s) && b <= |s| && IsCharBoundary(s, b)
    ensures ValidUtf8(s[..b])
    decreases |s|
  {
    if b > 0 {
      var w := CharWidth(s);
      BoundaryAfterFirstChar(s, b);
      var rest := s[w..];
      assert IsCharBoundary(rest, b - w);
      ValidPrefix(rest, b - w);
      var p := s[..b];
      TakeTake(s, b, w);
      CharWidthPrefix(s, p);
      TakeDrop(s, b, w);
    }
  }

  lemma TakeTake(s: seq<byte>, b: nat, w: nat)
    requires w <= b <= |s|
    ensures s[..b][..w] == s[..w]
  {
    assert forall i :: 0 <= i < w ==> s[..b][..w][i] == s[i];
  }

  lemma TakeDrop(s: seq<byte>, b: nat, w: nat)
    requires w <= b <= |s|
    ensures s[..b][w..] == s[w..][..b - w]
  {
    assert forall i :: 0 <= i < b - w ==> s[..b][w..][i] == s[w + i];
  }

  /** Slicing valid text at two char boundaries gives valid text. */
  lemma ValidSlice(s: seq<byte>, a: nat, b: nat)
    requires ValidUtf8(s) && a <= b <= |s| && IsCharBoundary(s, a) && IsCharBoundary(s, b)
    ensures ValidUtf8(s[a..b])
  {
    ValidPrefix(s, b);
    assert IsCharBoundary(s[..b], a);
    ValidSuffix(s[..b], a);
    assert s[..b][a..] == s[a..b];
  }

  /** The code point encoded by the character at the head of `s`. */
  function CodePoint(s: seq<byte>): nat
    requires CharWidth(s) > 0
  {
    var w := CharWidth(s);
    var b0: int, b1: int, b2: int, b3: int :=
      s[0], if w > 1 then s[1] else 0x80, if w > 2 then s[2] else 0x80, if w > 3 then s[3] else 0x80;
    if w == 1 then b0
    else if w == 2 then (b0 - 0xC0) * 0x40 + (b1 - 0x80)
    else if w == 3 then (b0 - 0xE0) * 0x1000 + (b1 - 0x80) * 0x40 + (b2 - 0x80)
    else (b0 - 0xF0) * 0x40000 + (b1 - 0x80) * 0x1000 + (b2 - 0x80) * 0x40 + (b3 - 0x80)
  }

  /** `char::is_whitespace`: the code points with the Unicode `White_Space` property. */
  predicate IsWhitespace(c: nat) {
    c == 0x20 || 0x09 <= c <= 0x0D || c == 0x85 || c == 0xA0 || c == 0x1680
    || 0x2000 <= c <= 0x200A || c == 0x2028 || c == 0x2029 || c == 0x202F
    || c == 0x205F || c == 0x3000
  }

  /** The code points of valid text, in order. */
  function Chars(s: seq<byte>): seq<nat>
    requires ValidUtf8(s)
    decreases |s|
  {
    if |s| == 0 then [] else [CodePoint(s)] + Chars(s[CharWidth(s)..])
  }

  /** The concatenation of valid texts is valid. */
  lemma {:induction false} ValidAppend(x: seq<byte>, y: seq<byte>)
    requires ValidUtf8(x) && ValidUtf8(y)
    ensures ValidUtf8(x + y)
    decreases |x|
  {
    if |x| == 0 {
      assert x + y == y;
    } else {
      var w := CharWidth(x);
      var xy := x + y;
      TakeAppend(x, y, w);
      CharWidthPrefix(x, xy);
      DropAppend(x, y, w);
      ValidAppend(x[w..], y);
    }
  }

  /** The first character of `x` is also the first character of `x + y`. */
  lemma HeadOfAppend(x: seq<byte>, y: seq<byte>)
    requires CharWidth(x) > 0
    ensures CharWidth(x + y) == CharWidth(x) && CodePoint(x + y) == CodePoint(x)
  {
    var w := CharWidth(x);
    assert (x + y)[..w] == x[..w];
    CharWidthPrefix(x, x + y);
    assert forall i :: 0 <= i < w ==> (x + y)[i] == x[i];
  }

  lemma TakeAppend(x: seq<byte>, y: seq<byte>, w: nat)
    requires w <= |x|
    ensures (x + y)[..w] == x[..w]
  {
  }

  lemma DropAppend(x: seq<byte>, y: seq<byte>, w: nat)
    requires w <= |x|
    ensures (x + y)[w..] == x[w..] + y
  {
  }

  /** Valid text decodes piecewise: the characters of a concatenation are the
      characters of each part. */
  lemma {:induction false} CharsAppend(x: seq<byte>, y: seq<byte>)
    requires ValidUtf8(x) && ValidUtf8(y)
    ensures ValidUtf8(x + y) && Chars(x + y) == Chars(x) + Chars(y)
    decreases |x|
  {
    ValidAppend(x, y);
    if |x| == 0 {
      assert x + y == y;
    } else {
      var w := CharWidth(x);
      var xy := x + y;
      HeadOfAppend(x, y);
      DropAppend(x, y, w);
      CharsAppend(x[w..], y);
    }
  }

  /** Every character of `s` is whitespace. */
  predicate AllWhitespace(cs: seq<nat>) {
    forall i :: 0 <= i < |cs| ==> IsWhitespace(cs[i])
  }
}
