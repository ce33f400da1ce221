/** The `string` core library module: the argument-checked string tests, `format` with
    a lone string, `from_bytes` and `trim`. Patterns are matched on the UTF-8 bytes of
    the text, as `str` matching does. */
module Strings {
  import opened Wrappers
  import opened Utf8
  import opened ValueStrings
  import opened Values
  import opened Iterators

  const StringExpected := "a String as argument"
  const TwoStringsExpected := "two Strings as arguments"
  const FormatExpected := "a String as argument, followed by optional additional Values"
  const ByteExpected := "a number"

  /** `expected_string_error`. */
  function ExpectedStringError(unexpected: seq<Value>): (r: Result<Value>)
    ensures r.Err? && r.error.TypeError? && r.error.unexpected == unexpected
  {
    Err(TypeError(StringExpected, unexpected))
  }

  /** `expected_two_strings_error`. */
  function ExpectedTwoStringsError(unexpected: seq<Value>): (r: Result<Value>)
    ensures r.Err? && r.error.TypeError? && r.error.unexpected == unexpected
  {
    Err(TypeError(TwoStringsExpected, unexpected))
  }

  predicate TwoStrings(args: seq<Value>) {
    |args| == 2 && args[0].Str? && args[1].Str?
  }

  predicate OneString(args: seq<Value>) {
    |args| == 1 && args[0].Str?
  }

  // Pattern tests on bytes

  /** The first byte offset at or after `k` where `p` occurs in `s`. */
  function FindBytesFrom(s: seq<byte>, p: seq<byte>, k: nat): (r: Option<nat>)
    decreases |s| - k
  {
    if k + |p| > |s| then None
    else if IsPrefixOf(p, s[k..]) then Some(k)
    else FindBytesFrom(s, p, k + 1)
  }

  /** Byte-by-byte comparison of `p` with the head of `s`. */
  predicate IsPrefixOf(p: seq<byte>, s: seq<byte>) {
    |p| == 0 || (|s| > 0 && p[0] == s[0] && IsPrefixOf(p[1..], s[1..]))
  }

  /** The byte comparison holds exactly when `s` is `p` followed by something. */
  lemma {:induction false} IsPrefixOfIff(p: seq<byte>, s: seq<byte>)
    ensures IsPrefixOf(p, s) <==> |p| <= |s| && s[..|p|] == p
  {
    if |p| > 0 && |s| > 0 {
      IsPrefixOfIff(p[1..], s[1..]);
      if |p| <= |s| && s[..|p|] == p {
        assert s[1..][..|p| - 1] == p[1..];
      }
      if IsPrefixOf(p, s) {
        assert s[..|p|] == [s[0]] + s[1..][..|p| - 1];
        assert p == [p[0]] + p[1..];
      }
    }
  }

  /** `p` occurs in `s` at byte offset `k`. */
  predicate OccursAt(p: seq<byte>, s: seq<byte>, k: nat) {
    k + |p| <= |s| && s[k..k + |p|] == p
  }

  /** The search finds the first occurrence at or after `k`, and finds nothing when
      there is none. */
  lemma {:induction false} FindBytesFromIsFirst(s: seq<byte>, p: seq<byte>, k: nat)
    ensures FindBytesFrom(s, p, k).Some? ==>
      var j := FindBytesFrom(s, p, k).value;
      k <= j && OccursAt(p, s, j) && forall i :: k <= i < j ==> !OccursAt(p, s, i)
    ensures FindBytesFrom(s, p, k).None? ==> forall i :: k <= i ==> !OccursAt(p, s, i)
    decreases |s| - k
  {
    if k + |p| <= |s| {
      IsPrefixOfIff(p, s[k..]);
      assert s[k..][..|p|] == s[k..k + |p|];
      if !IsPrefixOf(p, s[k..]) {
        FindBytesFromIsFirst(s, p, k + 1);
      }
    }
  }

  /** `p` occurs in `a + p + b` just after `a`. */
  lemma OccursInConcat(a: seq<byte>, p: seq<byte>, b: seq<byte>)
    ensures OccursAt(p, a + p + b, |a|)
    ensures a == [] ==> (a + p + b)[..|p|] == p
    ensures b == [] ==> (a + p + b)[|a|..] == p
  {
    assert (a + p + b)[|a|..|a| + |p|] == p;
  }

  /** `s` contains `p` as a run of bytes. */
  lemma ContainsIff(s: seq<byte>, p: seq<byte>)
    ensures FindBytesFrom(s, p, 0).Some? <==> exists a, b :: s == a + p + b
  {
    FindBytesFromIsFirst(s, p, 0);
    if FindBytesFrom(s, p, 0).Some? {
      var j := FindBytesFrom(s, p, 0).value;
      assert s == s[..j] + p + s[j + |p|..];
    } else {
      forall a, b
        ensures s != a + p + b
      {
        OccursInConcat(a, p, b);
      }
    }
  }

  /** `s` begins with `p`. */
  lemma StartsWithIff(s: seq<byte>, p: seq<byte>)
    ensures IsPrefixOf(p, s) <==> exists t :: s == p + t
  {
    IsPrefixOfIff(p, s);
    if IsPrefixOf(p, s) {
      assert s == p + s[|p|..];
    } else {
      forall t
        ensures s != p + t
      {
        OccursInConcat([], p, t);
      }
    }
  }

  /** `s` ends with `p`: the reversed comparison from the end of `s`. */
  predicate IsSuffixOf(p: seq<byte>, s: seq<byte>) {
    |p| <= |s| && IsPrefixOf(p, s[|s| - |p|..])
  }

  lemma EndsWithIff(s: seq<byte>, p: seq<byte>)
    ensures IsSuffixOf(p, s) <==> exists t :: s == t + p
  {
    if |p| <= |s| {
      IsPrefixOfIff(p, s[|s| - |p|..]);
    }
    if IsSuffixOf(p, s) {
      assert s == s[..|s| - |p|] + p;
    } else {
      forall t
        ensures s != t + p
      {
        OccursInConcat(t, p, []);
      }
    }
  }

  /** `contains`: whether the second string occurs in the first at some byte offset. Any
      other arguments give the single-string type error, as the source does. */
  function Contains(args: seq<Value>): (r: Result<Value>)
    ensures TwoStrings(args) ==>
      r == Ok(Bool(exists j :: OccursAt(AsStr(args[1].s), AsStr(args[0].s), j)))
    ensures !TwoStrings(args) ==> r == ExpectedStringError(args)
  {
    if TwoStrings(args) then
      FindBytesFromIsFirst(AsStr(args[0].s), AsStr(args[1].s), 0);
      Ok(Bool(FindBytesFrom(AsStr(args[0].s), AsStr(args[1].s), 0).Some?))
    else
      ExpectedStringError(args)
  }

  /** `starts_with`: whether the second string occurs at the start of the first. */
  function StartsWith(args: seq<Value>): (r: Result<Value>)
    ensures TwoStrings(args) ==> r == Ok(Bool(OccursAt(AsStr(args[1].s), AsStr(args[0].s), 0)))
    ensures !TwoStrings(args) ==> r == ExpectedTwoStringsError(args)
  {
    if TwoStrings(args) then
      PrefixOccurs(AsStr(args[1].s), AsStr(args[0].s));
      Ok(Bool(IsPrefixOf(AsStr(args[1].s), AsStr(args[0].s))))
    else
      ExpectedTwoStringsError(args)
  }

  /** `ends_with`: whether the second string occurs at the end of the first. */
  function EndsWith(args: seq<Value>): (r: Result<Value>)
    ensures TwoStrings(args) ==>
      var t, q := AsStr(args[0].s), AsStr(args[1].s);
      r == Ok(Bool(|q| <= |t| && OccursAt(q, t, |t| - |q|)))
    ensures !TwoStrings(args) ==> r == ExpectedTwoStringsError(args)
  {
    if TwoStrings(args) then
      SuffixOccurs(AsStr(args[1].s), AsStr(args[0].s));
      Ok(Bool(IsSuffixOf(AsStr(args[1].s), AsStr(args[0].s))))
    else
      ExpectedTwoStringsError(args)
  }

  /** The byte comparison from the start finds an occurrence at offset 0. */
  lemma PrefixOccurs(p: seq<byte>, s: seq<byte>)
    ensures IsPrefixOf(p, s) <==> OccursAt(p, s, 0)
  {
    IsPrefixOfIff(p, s);
  }

  /** The byte comparison from the end finds an occurrence ending with `s`. */
  lemma SuffixOccurs(p: seq<byte>, s: seq<byte>)
    ensures IsSuffixOf(p, s) <==> |p| <= |s| && OccursAt(p, s, |s| - |p|)
  {
    if |p| <= |s| {
      var tail := s[|s| - |p|..];
      IsPrefixOfIff(p, tail);
      assert tail[..|p|] == s[|s| - |p|..|s|];
    }
  }

  /** A string that starts with a pattern contains it. */
  lemma PrefixIsContained(s: ValueString, p: ValueString)
    requires StartsWith([Str(s), Str(p)]) == Ok(Bool(true))
    ensures Contains([Str(s), Str(p)]) == Ok(Bool(true))
  {
    assert OccursAt(AsStr(p), AsStr(s), 0);
  }

  /** A string that ends with a pattern contains it. */
  lemma SuffixIsContained(s: ValueString, p: ValueString)
    requires EndsWith([Str(s), Str(p)]) == Ok(Bool(true))
    ensures Contains([Str(s), Str(p)]) == Ok(Bool(true))
  {
    var t, q := AsStr(s), AsStr(p);
    assert OccursAt(q, t, |t| - |q|);
  }

  /** Every string starts with, ends with and contains itself. */
  lemma SelfPattern(s: ValueString, p: ValueString)
    requires Equal(s, p)
    ensures StartsWith([Str(s), Str(p)]) == Ok(Bool(true))
    ensures EndsWith([Str(s), Str(p)]) == Ok(Bool(true))
    ensures Contains([Str(s), Str(p)]) == Ok(Bool(true))
  {
    var t := AsStr(s);
    assert t[0..|t|] == t;
    assert OccursAt(t, t, 0);
  }

  /** Every string starts with, ends with and contains the empty string. */
  lemma EmptyPattern(s: ValueString, p: ValueString)
    requires AsStr(p) == []
    ensures StartsWith([Str(s), Str(p)]) == Ok(Bool(true))
    ensures EndsWith([Str(s), Str(p)]) == Ok(Bool(true))
    ensures Contains([Str(s), Str(p)]) == Ok(Bool(true))
  {
    var t := AsStr(s);
    assert OccursAt([], t, 0);
    assert OccursAt([], t, |t|);
  }

  /** `is_empty`. */
  function IsEmpty(args: seq<Value>): (r: Result<Value>)
    ensures OneString(args) ==> r == Ok(Bool(Equal(args[0].s, Empty())))
    ensures !OneString(args) ==> r == ExpectedStringError(args)
  {
    if OneString(args) then Ok(Bool(|AsStr(args[0].s)| == 0)) else ExpectedStringError(args)
  }

  /** `format`. Formatting against further arguments is done by `format_string`, which
      is a parameter here. */
  function Format(args: seq<Value>, formatString: (ValueString, seq<Value>) -> Result<ValueString>): (r: Result<Value>)
    ensures OneString(args) ==> r == Ok(args[0])
    ensures |args| >= 2 && args[0].Str? && formatString(args[0].s, args[1..]).Ok? ==>
      r == Ok(Str(formatString(args[0].s, args[1..]).value))
    ensures |args| >= 2 && args[0].Str? && formatString(args[0].s, args[1..]).Err? ==>
      r == Err(formatString(args[0].s, args[1..]).error)
    ensures !(|args| >= 1 && args[0].Str?) ==> r == Err(TypeError(FormatExpected, args))
  {
    if |args| == 1 && args[0].Str? then
      Ok(args[0])
    else if |args| >= 1 && args[0].Str? then
      match formatString(args[0].s, args[1..])
      case Ok(text) => Ok(Str(text))
      case Err(e) => Err(e)
    else
      Err(TypeError(FormatExpected, args))
  }

  // from_bytes

  /** `u8::try_from(n.as_i64())`: the byte a number stands for. A float is truncated toward
      zero first, so anything strictly between -1 and 256 gives a byte. */
  function ByteOf(n: ValueNumber): (r: Option<byte>)
    ensures n.I64? ==> (r.Some? <==> 0 <= n.i < 256) && (r.Some? ==> r.value == n.i)
    ensures n.F64? ==> (r.Some? <==> -1.0 < n.f < 256.0)
    ensures n.F64? && r.Some? ==> r.value as real <= n.f + 1.0 && (n.f >= 0.0 ==> r.value as real <= n.f < r.value as real + 1.0)
  {
    match n
    case I64(i) => if 0 <= i < 256 then Some(i) else None
    case F64(f) =>
      if -1.0 < f < 256.0 then
        var b := if f < 0.0 then 0 else f.Floor;
        Some(b)
      else
        None
  }

  /** An output `from_bytes` accepts as one byte. */
  predicate IsByteOutput(o: Output) {
    o.Value? && o.value.Number? && ByteOf(o.value.n).Some?
  }

  /** The bytes `from_bytes` collects from the outputs from index `i` on, after `acc`; the
      first output that is not a byte decides the error. */
  function BytesFrom(outs: seq<Output>, acc: seq<byte>, i: nat): Result<seq<byte>>
    requires i <= |outs|
    decreases |outs| - i
  {
    if i == |outs| then Ok(acc)
    else
      match CollectPair(outs[i])
      case Value(Number(n)) =>
        (match ByteOf(n)
         case Some(b) => BytesFrom(outs, acc + [b], i + 1)
         case None => Err(ByteOutOfRange(n)))
      case Value(unexpected) => Err(TypeError(ByteExpected, [unexpected]))
      case Error(e) => Err(e)
  }

  /** The final step of `from_bytes`: the bytes are accepted only as UTF-8 text. */
  function StringFromBytes(bytes: seq<byte>): (r: Result<Value>)
    ensures r.Ok? <==> ValidUtf8(bytes)
    ensures r.Ok? ==> r.value.Str? && AsStr(r.value.s) == bytes
    ensures r.Err? ==> r.error == InvalidUtf8
  {
    if ValidUtf8(bytes) then Ok(Str(New(bytes))) else Err(InvalidUtf8)
  }

  /** `from_bytes`. */
  method FromBytes(vm: Vm, args: seq<Value>) returns (r: Result<Value>)
    ensures OneIterable(args) && vm.makeIterator(args[0]).Err? ==> r == Err(vm.makeIterator(args[0]).error)
    ensures OneIterable(args) && vm.makeIterator(args[0]).Ok? && BytesFrom(vm.makeIterator(args[0]).value, [], 0).Err? ==>
      r == Err(BytesFrom(vm.makeIterator(args[0]).value, [], 0).error)
    ensures OneIterable(args) && vm.makeIterator(args[0]).Ok? && BytesFrom(vm.makeIterator(args[0]).value, [], 0).Ok? ==>
      r == StringFromBytes(BytesFrom(vm.makeIterator(args[0]).value, [], 0).value)
    ensures !OneIterable(args) ==> r == Err(TypeError(IterableExpected, args))
  {
    if !OneIterable(args) {
      return Err(TypeError(IterableExpected, args));
    }
    var made := vm.makeIterator(args[0]);
    if made.Err? {
      return Err(made.error);
    }
    var outs := made.value;
    var bytes: seq<byte> := [];
    for i := 0 to |outs|
      invariant BytesFrom(outs, [], 0) == BytesFrom(outs, bytes, i)
    {
      match CollectPair(outs[i]) {
        case Value(Number(n)) =>
          var byte := ByteOf(n);
          if byte.None? {
            return Err(ByteOutOfRange(n));
          }
          bytes := bytes + [byte.value];
        case Value(unexpected) =>
          return Err(TypeError(ByteExpected, [unexpected]));
        case Error(e) =>
          return Err(e);
      }
    }
    return StringFromBytes(bytes);
  }

  /** Collecting succeeds exactly when every output is a byte, and then the bytes are the
      outputs' bytes, in order. */
  lemma {:induction false} BytesFromAll(outs: seq<Output>, acc: seq<byte>, i: nat)
    requires i <= |outs|
    ensures BytesFrom(outs, acc, i).Ok? <==> forall k :: i <= k < |outs| ==> IsByteOutput(outs[k])
    ensures BytesFrom(outs, acc, i).Ok? ==>
      var bytes := BytesFrom(outs, acc, i).value;
      && |bytes| == |acc| + |outs| - i && bytes[..|acc|] == acc
      && forall k :: i <= k < |outs| ==> Some(bytes[|acc| + k - i]) == ByteOf(outs[k].value.n)
    decreases |outs| - i
  {
    if i < |outs| {
      var o := outs[i];
      if IsByteOutput(o) {
        var b := ByteOf(o.value.n).value;
        BytesFromAll(outs, acc + [b], i + 1);
        var r := BytesFrom(outs, acc + [b], i + 1);
        if r.Ok? {
          assert r.value[..|acc| + 1][..|acc|] == r.value[..|acc|];
        }
      }
    }
  }

  /** The first output that is not a byte decides the error: an error output is passed on,
      a number outside the byte range is reported, anything else is a type error. */
  lemma {:induction false} BytesFromFirstFailure(outs: seq<Output>, acc: seq<byte>, i: nat, k: nat)
    requires i <= k < |outs| && !IsByteOutput(outs[k])
    requires forall j :: i <= j < k ==> IsByteOutput(outs[j])
    ensures outs[k].Error? ==> BytesFrom(outs, acc, i) == Err(outs[k].error)
    ensures !outs[k].Error? && Collected(outs[k]).Number? ==>
      BytesFrom(outs, acc, i) == Err(ByteOutOfRange(Collected(outs[k]).n))
    ensures !outs[k].Error? && !Collected(outs[k]).Number? ==>
      BytesFrom(outs, acc, i) == Err(TypeError(ByteExpected, [Collected(outs[k])]))
    decreases k - i
  {
    if i < k {
      BytesFromFirstFailure(outs, acc + [ByteOf(outs[i].value.n).value], i + 1, k);
    }
  }

  /** The outputs of an iterator over the bytes of a text (`string.bytes`). */
  function ByteOutputs(bytes: seq<byte>): (r: seq<Output>)
    ensures |r| == |bytes|
    ensures forall k :: 0 <= k < |bytes| ==> r[k] == Output.Value(Number(I64(bytes[k])))
  {
    seq(|bytes|, k requires 0 <= k < |bytes| => Output.Value(Number(I64(bytes[k]))))
  }

  /** `from_bytes` rebuilds a string from its own bytes. */
  lemma FromBytesRoundTrip(s: ValueString)
    ensures BytesFrom(ByteOutputs(AsStr(s)), [], 0) == Ok(AsStr(s))
    ensures StringFromBytes(AsStr(s)).Ok? && Equal(StringFromBytes(AsStr(s)).value.s, s)
  {
    var outs := ByteOutputs(AsStr(s));
    assert forall k :: 0 <= k < |outs| ==> IsByteOutput(outs[k]);
    BytesFromAll(outs, [], 0);
    var bytes := BytesFrom(outs, [], 0).value;
    assert forall k :: 0 <= k < |bytes| ==> bytes[k] == AsStr(s)[k];
    assert bytes == AsStr(s);
    AsStrValid(s);
  }

  // trim

  /** The byte offset of the first character of `t` that is not whitespace (`str::find`). */
  function FindNonWhitespace(t: seq<byte>): Option<nat>
    requires ValidUtf8(t)
    decreases |t|
  {
    if |t| == 0 then None
    else if !IsWhitespace(CodePoint(t)) then Some(0)
    else
      match FindNonWhitespace(t[CharWidth(t)..])
      case None => None
      case Some(k) => Some(CharWidth(t) + k)
  }

  /** The byte offset at which the last character of `t` that is not whitespace starts
      (`str::rfind`). */
  function RFindNonWhitespace(t: seq<byte>): Option<nat>
    requires ValidUtf8(t)
    decreases |t|
  {
    if |t| == 0 then None
    else
      match RFindNonWhitespace(t[CharWidth(t)..])
      case Some(k) => Some(CharWidth(t) + k)
      case None => if !IsWhitespace(CodePoint(t)) then Some(0) else None
  }

  /** Text that starts with a character is that character followed by the rest. */
  lemma FirstChar(t: seq<byte>)
    requires CharWidth(t) > 0
    ensures ValidUtf8(t[..CharWidth(t)]) && Chars(t[..CharWidth(t)]) == [CodePoint(t)]
  {
    var w := CharWidth(t);
    var c := t[..w];
    assert c[..w] == t[..w];
    CharWidthPrefix(t, c);
    assert c[w..] == [];
    assert forall i :: 0 <= i < w ==> c[i] == t[i];
  }

  /** A char boundary of the text after the first character is one of the whole text,
      shifted by the first character's width. */
  lemma ShiftBoundary(t: seq<byte>, k: nat)
    requires ValidUtf8(t) && |t| > 0 && k <= |t| - CharWidth(t)
    ensures IsCharBoundary(t[CharWidth(t)..], k) ==> IsCharBoundary(t, CharWidth(t) + k)
    ensures t[CharWidth(t) + k..] == t[CharWidth(t)..][k..]
  {
    var w := CharWidth(t);
    var rest := t[w..];
    if 0 < k < |rest| {
      assert rest[k] == t[w + k];
    }
    if k == 0 && |rest| > 0 {
      assert rest[0] == t[w];
      assert !IsContinuation(rest[0]);
    }
  }

  /** Valid text after the first character extends to valid text from the start, whose
      characters are the first one followed by its own. */
  lemma PrependFirstChar(t: seq<byte>, w: nat, k: nat)
    requires w == CharWidth(t) && w > 0 && w + k <= |t|
    requires ValidUtf8(t[w..][..k])
    ensures ValidUtf8(t[..w + k])
    ensures Chars(t[..w + k]) == [CodePoint(t)] + Chars(t[w..][..k])
  {
    FirstChar(t);
    TakeSplit(t, w, k);
    ConsChars(t[..w + k], t[..w], t[w..][..k], CodePoint(t));
  }

  /** A character followed by valid text decodes to that character, then the text's. */
  lemma ConsChars(u: seq<byte>, head: seq<byte>, tail: seq<byte>, c: nat)
    requires u == head + tail && ValidUtf8(head) && Chars(head) == [c] && ValidUtf8(tail)
    ensures ValidUtf8(u) && Chars(u) == [c] + Chars(tail)
  {
    CharsAppend(head, tail);
  }

  lemma TakeSplit(t: seq<byte>, w: nat, k: nat)
    requires w + k <= |t|
    ensures t[..w + k] == t[..w] + t[w..][..k]
  {
  }

  /** When `find` finds nothing, the text is all whitespace. */
  lemma {:induction false} FindNone(t: seq<byte>)
    requires ValidUtf8(t) && FindNonWhitespace(t).None?
    ensures AllWhitespace(Chars(t))
    decreases |t|
  {
    if |t| > 0 {
      FindNone(t[CharWidth(t)..]);
    }
  }

  /** `find` stops at the start of a character that is not whitespace. */
  lemma {:induction false} FindStopsAt(t: seq<byte>, a: nat)
    requires ValidUtf8(t) && FindNonWhitespace(t) == Some(a)
    ensures a < |t| && IsCharBoundary(t, a)
    ensures ValidUtf8(t[a..]) && CharWidth(t[a..]) > 0 && !IsWhitespace(CodePoint(t[a..]))
    decreases |t|
  {
    var w := CharWidth(t);
    if !IsWhitespace(CodePoint(t)) {
      assert t[0..] == t;
    } else {
      var rest := t[w..];
      var k := FindNonWhitespace(rest).value;
      assert a == w + k;
      FindStopsAt(rest, k);
      ShiftBoundary(t, k);
      StartsKept(t[a..], rest[k..]);
    }
  }

  /** What holds of a text holds of an equal one. */
  lemma StartsKept(u: seq<byte>, v: seq<byte>)
    requires u == v && ValidUtf8(v) && CharWidth(v) > 0 && !IsWhitespace(CodePoint(v))
    ensures ValidUtf8(u) && CharWidth(u) > 0 && !IsWhitespace(CodePoint(u))
  {
  }

  /** Every character `find` passes over is whitespace. */
  lemma {:induction false} FindSkipsWhitespace(t: seq<byte>, a: nat)
    requires ValidUtf8(t) && FindNonWhitespace(t) == Some(a)
    ensures a <= |t| && ValidUtf8(t[..a]) && AllWhitespace(Chars(t[..a]))
    decreases |t|
  {
    var w := CharWidth(t);
    if !IsWhitespace(CodePoint(t)) {
      assert a == 0;
      NothingBefore(t[..a]);
    } else {
      var rest := t[w..];
      var k := FindNonWhitespace(rest).value;
      assert a == w + k;
      FindSkipsWhitespace(rest, k);
      SkipFirstWhitespace(t, k);
    }
  }

  /** Whitespace followed by whitespace is whitespace. */
  lemma SkipFirstWhitespace(t: seq<byte>, k: nat)
    requires CharWidth(t) > 0 && k <= |t| - CharWidth(t) && IsWhitespace(CodePoint(t))
    requires ValidUtf8(t[CharWidth(t)..][..k]) && AllWhitespace(Chars(t[CharWidth(t)..][..k]))
    ensures ValidUtf8(t[..CharWidth(t) + k]) && AllWhitespace(Chars(t[..CharWidth(t) + k]))
  {
    PrependFirstChar(t, CharWidth(t), k);
    WhitespaceCons(CodePoint(t), Chars(t[CharWidth(t)..][..k]));
  }

  lemma NothingBefore(u: seq<byte>)
    requires |u| == 0
    ensures ValidUtf8(u) && AllWhitespace(Chars(u))
  {
  }

  lemma WhitespaceCons(c: nat, m: seq<nat>)
    requires IsWhitespace(c) && AllWhitespace(m)
    ensures AllWhitespace([c] + m)
  {
    assert forall i :: 1 <= i < |m| + 1 ==> ([c] + m)[i] == m[i - 1];
  }

  /** The byte offset just after the last character of `t` that is not whitespace. */
  function TrimEnd(t: seq<byte>): Option<nat>
    requires ValidUtf8(t)
    decreases |t|
  {
    if |t| == 0 then None
    else
      match TrimEnd(t[CharWidth(t)..])
      case Some(k) => Some(CharWidth(t) + k)
      case None => if !IsWhitespace(CodePoint(t)) then Some(CharWidth(t)) else None
  }

  /** With no end found, the text is all whitespace. */
  lemma {:induction false} TrimEndNone(t: seq<byte>)
    requires ValidUtf8(t) && TrimEnd(t).None?
    ensures AllWhitespace(Chars(t))
    decreases |t|
  {
    if |t| > 0 {
      TrimEndNone(t[CharWidth(t)..]);
    }
  }

  /** The end found is a char boundary. */
  lemma {:induction false} TrimEndIsBoundary(t: seq<byte>)
    requires ValidUtf8(t) && TrimEnd(t).Some?
    ensures 0 < TrimEnd(t).value <= |t| && IsCharBoundary(t, TrimEnd(t).value)
    decreases |t|
  {
    var rest := t[CharWidth(t)..];
    if TrimEnd(rest).Some? {
      TrimEndIsBoundary(rest);
      ShiftBoundary(t, TrimEnd(rest).value);
    } else {
      ShiftBoundary(t, 0);
    }
  }

  /** The text before the end found ends with a character that is not whitespace. */
  lemma {:induction false} TrimEndAfterKept(t: seq<byte>)
    requires ValidUtf8(t) && TrimEnd(t).Some?
    ensures var e := TrimEnd(t).value;
      && e <= |t| && ValidUtf8(t[..e])
      && |Chars(t[..e])| > 0 && !IsWhitespace(Chars(t[..e])[|Chars(t[..e])| - 1])
    decreases |t|
  {
    var w := CharWidth(t);
    var rest := t[w..];
    match TrimEnd(rest)
    case Some(k) =>
      TrimEndAfterKept(rest);
      assert TrimEnd(t) == Some(w + k);
      PrependFirstChar(t, w, k);
    case None =>
      assert TrimEnd(t) == Some(w);
      FirstChar(t);
  }

  /** Every character after the end found is whitespace. */
  lemma {:induction false} TrimEndSkipsWhitespace(t: seq<byte>)
    requires ValidUtf8(t) && TrimEnd(t).Some?
    ensures var e := TrimEnd(t).value;
      e <= |t| && ValidUtf8(t[e..]) && AllWhitespace(Chars(t[e..]))
    decreases |t|
  {
    var w := CharWidth(t);
    var rest := t[w..];
    match TrimEnd(rest)
    case Some(k) =>
      TrimEndSkipsWhitespace(rest);
      assert TrimEnd(t) == Some(w + k);
      DropDrop(t, w, k);
    case None =>
      assert TrimEnd(t) == Some(w);
      TrimEndNone(rest);
  }

  /** `find` and the trimmed end find something in the same texts, and the first
      character that is not whitespace starts before that end. */
  lemma {:induction false} FindBeforeTrimEnd(t: seq<byte>)
    requires ValidUtf8(t)
    ensures FindNonWhitespace(t).Some? <==> TrimEnd(t).Some?
    ensures FindNonWhitespace(t).Some? ==> FindNonWhitespace(t).value < TrimEnd(t).value
    decreases |t|
  {
    if |t| > 0 {
      FindBeforeTrimEnd(t[CharWidth(t)..]);
    }
  }

  /** `rfind` finds the start of the character the trimmed end closes. */
  lemma {:induction false} RFindBeforeTrimEnd(t: seq<byte>)
    requires ValidUtf8(t)
    ensures RFindNonWhitespace(t).Some? <==> TrimEnd(t).Some?
    ensures RFindNonWhitespace(t).Some? ==>
      var b := RFindNonWhitespace(t).value;
      b < |t| && CharWidth(t[b..]) > 0 && TrimEnd(t).value == b + CharWidth(t[b..])
    decreases |t|
  {
    if |t| > 0 {
      var w := CharWidth(t);
      var rest := t[w..];
      RFindBeforeTrimEnd(rest);
      match RFindNonWhitespace(rest)
      case Some(k) =>
        DropDrop(t, w, k);
      case None =>
        assert t[0..] == t;
    }
  }

  lemma DropDrop(t: seq<byte>, w: nat, k: nat)
    requires w + k <= |t|
    ensures t[w + k..] == t[w..][k..]
  {
  }

  /** `t[a..c]` is `t` trimmed: both cuts are on char boundaries, the characters before `a`
      and from `c` on are all whitespace, and the characters kept are none, or begin and
      end with a character that is not whitespace. */
  predicate IsTrimOf(t: seq<byte>, a: nat, c: nat) {
    && a <= c <= |t| && IsCharBoundary(t, a) && IsCharBoundary(t, c)
    && ValidUtf8(t[..a]) && ValidUtf8(t[a..c]) && ValidUtf8(t[c..])
    && AllWhitespace(Chars(t[..a])) && AllWhitespace(Chars(t[c..]))
    && KeptEnds(Chars(t[a..c]))
  }

  /** The characters kept are none, or begin and end with non-whitespace. */
  predicate KeptEnds(m: seq<nat>) {
    |m| == 0 || (!IsWhitespace(m[0]) && !IsWhitespace(m[|m| - 1]))
  }

  /** The last character of `x + y` is the last of `y`, when `y` is not empty. */
  lemma LastOfAppend(x: seq<byte>, y: seq<byte>)
    requires ValidUtf8(x) && ValidUtf8(y) && |y| > 0
    ensures ValidUtf8(x + y) && |Chars(y)| > 0
    ensures Chars(x + y)[|Chars(x + y)| - 1] == Chars(y)[|Chars(y)| - 1]
  {
    CharsAppend(x, y);
  }

  /** The first character of `x + y` is the first of `x`, when `x` is valid and not empty. */
  lemma FirstOfAppend(x: seq<byte>, y: seq<byte>)
    requires ValidUtf8(x) && |x| > 0
    ensures CharWidth(x + y) > 0 && |Chars(x)| > 0 && CodePoint(x + y) == Chars(x)[0]
  {
    HeadOfAppend(x, y);
  }

  /** The text kept begins with the character `find` found. */
  lemma KeptFirst(t: seq<byte>, a: nat, e: nat)
    requires ValidUtf8(t) && a < e <= |t| && IsCharBoundary(t, a) && IsCharBoundary(t, e)
    requires CharWidth(t[a..]) > 0 && !IsWhitespace(CodePoint(t[a..]))
    ensures ValidUtf8(t[a..e]) && |Chars(t[a..e])| > 0 && !IsWhitespace(Chars(t[a..e])[0])
  {
    ValidSlice(t, a, e);
    var m, y := t[a..e], t[e..];
    assert t[a..] == m + y;
    FirstOfAppend(m, y);
  }

  /** The text kept ends with the character the trimmed end closes. */
  lemma KeptLast(t: seq<byte>, a: nat, e: nat)
    requires ValidUtf8(t) && a < e <= |t| && IsCharBoundary(t, a) && IsCharBoundary(t, e)
    requires ValidUtf8(t[..a])
    requires ValidUtf8(t[..e]) && |Chars(t[..e])| > 0 && !IsWhitespace(Chars(t[..e])[|Chars(t[..e])| - 1])
    ensures ValidUtf8(t[a..e]) && |Chars(t[a..e])| > 0
    ensures !IsWhitespace(Chars(t[a..e])[|Chars(t[a..e])| - 1])
  {
    ValidSlice(t, a, e);
    var x, m := t[..a], t[a..e];
    assert t[..e] == x + m;
    LastOfAppend(x, m);
  }

  /** The kept text of a text with some non-whitespace runs from the first character that
      is not whitespace to the end of the last one. */
  lemma TrimmedMiddle(t: seq<byte>)
    requires ValidUtf8(t) && FindNonWhitespace(t).Some?
    ensures TrimEnd(t).Some? && IsTrimOf(t, FindNonWhitespace(t).value, TrimEnd(t).value)
  {
    FindBeforeTrimEnd(t);
    var a, e := FindNonWhitespace(t).value, TrimEnd(t).value;
    FindStopsAt(t, a);
    FindSkipsWhitespace(t, a);
    TrimEndIsBoundary(t);
    TrimEndAfterKept(t);
    TrimEndSkipsWhitespace(t);
    KeptFirst(t, a, e);
    KeptLast(t, a, e);
    assert KeptEnds(Chars(t[a..e]));
  }

  /** An all-whitespace text is trimmed to nothing. */
  lemma TrimmedAway(t: seq<byte>)
    requires ValidUtf8(t) && FindNonWhitespace(t).None?
    ensures IsTrimOf(t, 0, 0)
  {
    FindNone(t);
    assert t[0..] == t && t[..0] == [] && t[0..0] == [];
  }

  /** The bounds of the trimmed text within `t`: two char boundaries in order. */
  function TrimBounds(t: seq<byte>): (r: (nat, nat))
    requires ValidUtf8(t)
    ensures r.0 <= r.1 <= |t| && IsCharBoundary(t, r.0) && IsCharBoundary(t, r.1)
  {
    match FindNonWhitespace(t)
    case None => (0, 0)
    case Some(a) =>
      FindStopsAt(t, a);
      FindBeforeTrimEnd(t);
      TrimEndIsBoundary(t);
      (a, TrimEnd(t).value)
  }

  /** The bounds cut `t` where it is trimmed. */
  lemma TrimBoundsTrim(t: seq<byte>)
    requires ValidUtf8(t)
    ensures IsTrimOf(t, TrimBounds(t).0, TrimBounds(t).1)
  {
    match FindNonWhitespace(t)
    case None => TrimmedAway(t);
    case Some(a) => TrimmedMiddle(t);
  }

  /** Cutting a text where it is trimmed splits its characters into the leading
      whitespace, the characters kept and the trailing whitespace. */
  lemma TrimSplitsChars(t: seq<byte>, a: nat, c: nat)
    requires ValidUtf8(t) && IsTrimOf(t, a, c)
    ensures Chars(t) == Chars(t[..a]) + Chars(t[a..c]) + Chars(t[c..])
  {
    var x, y, z := t[..a], t[a..c], t[c..];
    SplitThree(t, a, c);
    CharsAppendThree(x, y, z);
  }

  lemma SplitThree(t: seq<byte>, a: nat, c: nat)
    requires a <= c <= |t|
    ensures t == t[..a] + t[a..c] + t[c..]
  {
  }

  lemma CharsAppendThree(x: seq<byte>, y: seq<byte>, z: seq<byte>)
    requires ValidUtf8(x) && ValidUtf8(y) && ValidUtf8(z)
    ensures ValidUtf8(x + y + z)
    ensures Chars(x + y + z) == Chars(x) + Chars(y) + Chars(z)
  {
    CharsAppend(x, y);
    CharsAppend(x + y, z);
  }

  /** The trimmed view of `s`: the same data, with bounds narrowed to the trimmed text. */
  function TrimString(s: ValueString): (r: ValueString)
    ensures ValidUtf8(AsStr(s))
    ensures r.data == s.data
    ensures r.start == s.start + TrimBounds(AsStr(s)).0 && r.end == s.start + TrimBounds(AsStr(s)).1
    ensures AsStr(r) == AsStr(s)[TrimBounds(AsStr(s)).0..TrimBounds(AsStr(s)).1]
  {
    AsStrValid(s);
    var bounds := TrimBounds(AsStr(s));
    WithBounds(s, bounds.0, bounds.1).value
  }

  /** `trim`, with the end of the kept text taken after the last character that is not
      whitespace, whatever its width. */
  function Trim(args: seq<Value>): (r: Result<Value>)
    ensures OneString(args) ==> r == Ok(Str(TrimString(args[0].s)))
    ensures !OneString(args) ==> r == ExpectedStringError(args)
  {
    if OneString(args) then Ok(Str(TrimString(args[0].s))) else ExpectedStringError(args)
  }

  /** The width of the last character that is not whitespace, or 0 when there is none. */
  function LastKeptWidth(t: seq<byte>): nat
    requires ValidUtf8(t)
  {
    match RFindNonWhitespace(t)
    case None => 0
    case Some(b) =>
      RFindBeforeTrimEnd(t);
      CharWidth(t[b..])
  }

  /** `trim` as the source writes it: the end is the offset of the last character that is
      not whitespace plus one byte. None stands for the panic of `unwrap` on a `with_bounds`
      that fails. */
  function TrimAsWritten(s: ValueString): Option<ValueString>
  {
    AsStrValid(s);
    FindBeforeTrimEnd(AsStr(s));
    RFindBeforeTrimEnd(AsStr(s));
    match FindNonWhitespace(AsStr(s))
    case Some(start) => WithBounds(s, start, RFindNonWhitespace(AsStr(s)).value + 1)
    case None => WithBounds(s, 0, 0)
  }

  /** When the last character kept is one byte long (or nothing is kept), the code as
      written trims correctly. */
  lemma TrimAsWrittenOnAscii(s: ValueString)
    requires ValidUtf8(AsStr(s)) && LastKeptWidth(AsStr(s)) <= 1
    ensures TrimAsWritten(s) == Some(TrimString(s))
  {
    var t := AsStr(s);
    FindBeforeTrimEnd(t);
    RFindBeforeTrimEnd(t);
    var bounds := TrimBounds(t);
    assert TrimString(s) == WithBounds(s, bounds.0, bounds.1).value;
    match FindNonWhitespace(t)
    case None =>
      assert bounds == (0, 0);
    case Some(a) =>
      var b, e := RFindNonWhitespace(t).value, TrimEnd(t).value;
      assert e == b + 1;
      assert bounds == (a, e);
      assert TrimAsWritten(s) == WithBounds(s, a, e);
  }

  /** When the last character kept is wider than one byte, `end + 1` falls inside it, and
      the code as written panics. */
  lemma TrimAsWrittenPanics(s: ValueString)
    requires ValidUtf8(AsStr(s)) && LastKeptWidth(AsStr(s)) >= 2
    ensures TrimAsWritten(s).None?
  {
    var t := AsStr(s);
    FindBeforeTrimEnd(t);
    RFindBeforeTrimEnd(t);
    var b := RFindNonWhitespace(t).value;
    CharWidthTails(t[b..], 1);
    assert t[b..][1] == t[b + 1];
  }

  /** "é" (bytes C3 A9) has no whitespace to trim, yet the code as written panics on it,
      where the corrected trim keeps it whole. */
  lemma TrimAsWrittenPanicsOnAccent()
    ensures ValidUtf8([0xC3, 0xA9])
    ensures TrimAsWritten(New([0xC3, 0xA9])).None?
    ensures AsStr(TrimString(New([0xC3, 0xA9]))) == [0xC3, 0xA9]
  {
    var t: seq<byte> := [0xC3, 0xA9];
    assert CharWidth(t) == 2 && t[2..] == [];
    assert CodePoint(t) == 0xE9;
    assert RFindNonWhitespace(t) == Some(0);
    assert FindNonWhitespace(t) == Some(0);
    assert TrimEnd(t) == Some(2);
    assert t[0..] == t;
    TrimAsWrittenPanics(New(t));
  }
}
