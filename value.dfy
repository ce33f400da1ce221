/** The runtime's core `Value` type: a closed tagged union over every kind of value a
    script can hold, with the classification predicates, `size`, `type_as_string`,
    `deep_copy` and the integer range type built on it. */
module Values {
  import opened Wrappers
  import opened Utf8
  import opened ValueStrings

  /** `ValueNumber`: a signed 64-bit integer or a 64-bit float. */
  datatype ValueNumber = I64(i: int) | F64(f: real)

  /** A `num2`: two packed lanes. */
  datatype Vec2 = Vec2(x: real, y: real)

  /** A `num4`: four packed lanes. */
  datatype Vec4 = Vec4(x: real, y: real, z: real, w: real)

  /** What a chunk and entry point identify; the bytecode itself is not part of this model. */
  datatype FunctionInfo = FunctionInfo(ip: nat, argCount: nat)

  /** The integer range type exposed to scripts, with start/end boundaries. */
  datatype IntRange = IntRange(start: int, end: int) {
    /** `is_ascending`: the start is not after the end. */
    predicate IsAscending() {
      start <= end
    }

    /** `len`: descending ranges have a non-negative size too. */
    function Len(): (r: nat)
      ensures start + r == end || end + r == start
    {
      if IsAscending() then end - start else start - end
    }

    /** `is_empty`: the size is zero exactly when both ends coincide. */
    predicate IsEmpty()
      ensures IsEmpty() <==> start == end
    {
      Len() == 0
    }
  }

  datatype Value =
    | Null
    | Bool(b: bool)
    | Number(n: ValueNumber)
    | Num2(n2: Vec2)
    | Num4(n4: Vec4)
    | Range(range: IntRange)
    | List(items: seq<Value>)
    | Tuple(items: seq<Value>)
      /** The entries in insertion order, and the value stored under the `@type` meta key. */
    | Map(entries: seq<(Value, Value)>, typeMeta: Option<Value>)
    | Str(s: ValueString)
    | SimpleFunction(info: FunctionInfo)
    | Function(info: FunctionInfo)
    | Generator(info: FunctionInfo)
      /** An iterator, as the outputs it has still to produce. */
    | Iterator(remaining: seq<Output>)
    | ExternalFunction(id: nat)
    | ExternalValue(valueType: ValueString)
    | IndexRange(indexStart: nat, indexEnd: Option<nat>)
    | TemporaryTuple(registerStart: nat, count: nat)
    | SequenceBuilder(items: seq<Value>)
    | StringBuilder(text: seq<byte>)

  /** `ValueIteratorOutput`: what one step of an iterator produces. */
  datatype Output = Value(value: Value) | ValuePair(first: Value, second: Value) | Error(error: RuntimeError)

  /** The runtime errors raised by the functions in this model; `Raised` stands for an
      error raised elsewhere (by script code, or by the virtual machine). */
  datatype RuntimeError =
    | TypeError(expected: string, unexpected: seq<Value>)  // type_error, type_error_with_slice
    | NonBoolComparison(found: seq<byte>)                  // "Expected Bool from '<' comparison, found '…'"
    | MutableKey(found: seq<byte>)                         // "Only immutable Values can be used as keys (found '…')"
    | ByteOutOfRange(n: ValueNumber)                       // "'…' is out of the valid byte range"
    | InvalidUtf8                                          // "Input failed UTF-8 validation"
    | InvalidNum4Index(index: nat)                         // "num4.with: invalid index '…'"
    | Raised(code: nat)

  /** `RuntimeResult`. */
  datatype Result<+T> = Ok(value: T) | Err(error: RuntimeError)

  /** `is_callable`: values with function-like callable behaviour. */
  predicate IsCallable(v: Value) {
    v.SimpleFunction? || v.Function? || v.ExternalFunction?
  }

  /** `is_immutable`: values without internal mutability, the only ones accepted as map keys. */
  predicate IsImmutable(v: Value) {
    v.Null? || v.Bool? || v.Number? || v.Num2? || v.Num4? || v.Range? || v.Str?
  }

  /** `is_iterable`: values an iterator can be made from. */
  predicate IsIterable(v: Value) {
    v.Num2? || v.Num4? || v.Range? || v.List? || v.Tuple? || v.Map? || v.Str? || v.Iterator?
  }

  /** One more than the largest `usize`. */
  const UsizeLimit: nat := 0x1_0000_0000_0000_0000

  /** A number used as a count or an index (`usize`), converted as Rust's `as usize` cast
      does: an integer wraps around (so a negative one becomes a huge index), a float is
      truncated toward zero and saturates at both ends. */
  function UsizeOf(n: ValueNumber): (r: nat)
    ensures r < UsizeLimit
    ensures n.I64? && 0 <= n.i < UsizeLimit ==> r == n.i
    ensures n.F64? && 0.0 <= n.f < UsizeLimit as real ==> r as real <= n.f < r as real + 1.0
  {
    match n
    case I64(i) => i % UsizeLimit
    case F64(f) => if f <= 0.0 then 0 else if f >= UsizeLimit as real then UsizeLimit - 1 else f.Floor
  }

  /** A value cannot be both called and used as a key, nor both called and iterated. */
  lemma CallableIsNeitherKeyNorIterable(v: Value)
    requires IsCallable(v)
    ensures !IsImmutable(v) && !IsIterable(v)
  {
  }

  /** `size`: the number of elements the value offers to an unpacking expression. */
  function Size(v: Value): (r: nat)
    ensures r == 0 ==> v.List? || v.Tuple? || v.Map? || v.TemporaryTuple?
    ensures (v.List? || v.Tuple?) ==> r == |v.items|
    ensures v.Map? ==> r == |v.entries|
    ensures v.TemporaryTuple? ==> r == v.count
    ensures v.Num2? ==> r == 2
    ensures v.Num4? ==> r == 4
    ensures !(v.List? || v.Tuple? || v.Map? || v.TemporaryTuple? || v.Num2? || v.Num4?) ==> r == 1
  {
    match v
    case List(items) => |items|
    case Tuple(items) => |items|
    case TemporaryTuple(_, count) => count
    case Map(entries, _) => |entries|
    case Num2(_) => 2
    case Num4(_) => 4
    case _ => 1
  }

  /** The bytes of a type name written in ASCII. */
  function Ascii(s: string): (r: seq<byte>)
    ensures |r| == |s|
  {
    seq(|s|, i requires 0 <= i < |s| => (s[i] as int) % 256)
  }

  /** `type_as_string`. A Map with a `@type` meta entry reports that string instead. */
  function TypeAsString(v: Value): seq<byte> {
    match v
    case Null => Ascii("Null")
    case Bool(_) => Ascii("Bool")
    case Number(F64(_)) => Ascii("Float")
    case Number(I64(_)) => Ascii("Int")
    case Num2(_) => Ascii("Num2")
    case Num4(_) => Ascii("Num4")
    case List(_) => Ascii("List")
    case Range(_) => Ascii("Range")
    case IndexRange(_, _) => Ascii("IndexRange")
    case Map(_, meta) =>
      (match meta
       case Some(Str(s)) => AsStr(s)
       case Some(_) => Ascii("Error: expected string for overloaded type")
       case None => Ascii("Map"))
    case Str(_) => Ascii("String")
    case Tuple(_) => Ascii("Tuple")
    case SimpleFunction(_) => Ascii("Function")
    case Function(_) => Ascii("Function")
    case Generator(_) => Ascii("Generator")
    case ExternalFunction(_) => Ascii("ExternalFunction")
    case ExternalValue(valueType) => AsStr(valueType)
    case Iterator(_) => Ascii("Iterator")
    case TemporaryTuple(_, _) => Ascii("TemporaryTuple")
    case SequenceBuilder(_) => Ascii("SequenceBuilder")
    case StringBuilder(_) => Ascii("StringBuilder")
  }

  /** Numbers report "Int" or "Float" by representation, whatever their value. */
  lemma NumberTypeNames(n: ValueNumber)
    ensures TypeAsString(Number(n)) == if n.I64? then Ascii("Int") else Ascii("Float")
    ensures TypeAsString(Number(I64(0))) != TypeAsString(Number(F64(0.0)))
  {
    assert Ascii("Int")[1] != Ascii("Float")[1];
  }

  /** A Map whose `@type` meta value is a string reports that string; a Map with
      another `@type` value reports an error text; a Map without one is a "Map". */
  lemma MapTypeName(entries: seq<(Value, Value)>, meta: Option<Value>)
    ensures meta.Some? && meta.value.Str? ==> TypeAsString(Map(entries, meta)) == AsStr(meta.value.s)
    ensures meta.Some? && !meta.value.Str? ==>
      TypeAsString(Map(entries, meta)) == Ascii("Error: expected string for overloaded type")
    ensures meta.None? ==> TypeAsString(Map(entries, meta)) == Ascii("Map")
  {
  }

  /** `deep_copy`: Lists, Tuples and Map values are copied element by element (a Map
      keeps its keys and its meta map); an Iterator is copied with `make_copy`, which
      resumes from the same point; every other value is cloned. */
  function DeepCopy(v: Value): Value
    decreases v
  {
    match v
    case List(items) => List(seq(|items|, i requires 0 <= i < |items| => DeepCopy(items[i])))
    case Tuple(items) => Tuple(seq(|items|, i requires 0 <= i < |items| => DeepCopy(items[i])))
    case Map(entries, meta) =>
      Map(seq(|entries|, i requires 0 <= i < |entries| => (entries[i].0, DeepCopy(entries[i].1))), meta)
    case Iterator(remaining) => Iterator(remaining)
    case _ => v
  }

  /** A deep copy holds the same content as the original, element by element, at every
      depth: the same number of elements (so the same `size`), the same keys, the same
      type name. */
  lemma {:induction false} DeepCopyEqual(v: Value)
    ensures DeepCopy(v) == v
    decreases v
  {
    match v
    case List(items) =>
      forall i | 0 <= i < |items| ensures DeepCopy(items[i]) == items[i] {
        DeepCopyEqual(items[i]);
      }
      assert DeepCopy(v).items == items;
    case Tuple(items) =>
      forall i | 0 <= i < |items| ensures DeepCopy(items[i]) == items[i] {
        DeepCopyEqual(items[i]);
      }
      assert DeepCopy(v).items == items;
    case Map(entries, meta) =>
      forall i | 0 <= i < |entries| ensures DeepCopy(entries[i].1) == entries[i].1 {
        DeepCopyEqual(entries[i].1);
      }
      assert DeepCopy(v).entries == entries;
    case _ =>
  }

  /** Deep copying keeps the size and the type name. */
  lemma DeepCopyKeepsShape(v: Value)
    ensures Size(DeepCopy(v)) == Size(v) && TypeAsString(DeepCopy(v)) == TypeAsString(v)
  {
    DeepCopyEqual(v);
  }

  /** `Display` for Null. */
  function DisplayNull(): seq<char> {
    "null"
  }

  /** The decimal digits of a natural number, as Rust's `Display` for integers writes them. */
  function Digits(n: nat): (r: seq<char>)
    ensures |r| > 0 && forall i :: 0 <= i < |r| ==> '0' <= r[i] <= '9'
    decreases n
  {
    if n < 10 then [(n + '0' as int) as char] else Digits(n / 10) + [(n % 10 + '0' as int) as char]
  }

  /** `Display` for an integer: a minus sign for negative values, then the digits. */
  function DisplayInt(i: int): seq<char> {
    if i < 0 then "-" + Digits(-i) else Digits(i)
  }

  /** `Display` for a Range: `{start}..{end}`. */
  function DisplayRange(r: IntRange): seq<char> {
    DisplayInt(r.start) + ".." + DisplayInt(r.end)
  }

  /** The value written by a string of decimal digits. */
  function DigitsValue(s: seq<char>): nat
    requires forall i :: 0 <= i < |s| ==> '0' <= s[i] <= '9'
  {
    if |s| == 0 then 0 else DigitsValue(s[..|s| - 1]) * 10 + (s[|s| - 1] as int - '0' as int)
  }

  lemma {:induction false} DigitsRoundTrip(n: nat)
    ensures DigitsValue(Digits(n)) == n
    decreases n
  {
    if n >= 10 {
      DigitsRoundTrip(n / 10);
      var d := Digits(n);
      assert d[..|d| - 1] == Digits(n / 10);
    }
  }

  /** Reading back an integer written by `DisplayInt`. */
  function ParseInt(s: seq<char>): Option<int> {
    if |s| > 0 && s[0] == '-' && |s| > 1 && (forall i :: 1 <= i < |s| ==> '0' <= s[i] <= '9') then
      var n: int := DigitsValue(s[1..]); Some(-n)
    else if |s| > 0 && forall i :: 0 <= i < |s| ==> '0' <= s[i] <= '9' then
      Some(DigitsValue(s))
    else
      None
  }

  /** Reading back a range written by `DisplayRange`: split at the first "..". */
  function ParseRange(s: seq<char>): Option<IntRange>
    decreases |s|
  {
    var k := FirstDots(s, 0);
    if k.None? then None
    else
      var a, b := ParseInt(s[..k.value]), ParseInt(s[k.value + 2..]);
      if a.Some? && b.Some? then Some(IntRange(a.value, b.value)) else None
  }

  /** The first position at or after `from` where ".." starts. */
  function FirstDots(s: seq<char>, from: nat): (r: Option<nat>)
    ensures r.Some? ==> from <= r.value && r.value + 2 <= |s| && s[r.value] == '.' && s[r.value + 1] == '.'
    ensures r.Some? ==> forall j :: from <= j < r.value ==> s[j] != '.' || s[j + 1] != '.'
    ensures r.None? ==> forall j :: from <= j && j + 1 < |s| ==> s[j] != '.' || s[j + 1] != '.'
    decreases |s| - from
  {
    if from + 2 > |s| then None
    else if s[from] == '.' && s[from + 1] == '.' then Some(from)
    else FirstDots(s, from + 1)
  }

  lemma DisplayIntRoundTrip(i: int)
    ensures ParseInt(DisplayInt(i)) == Some(i)
  {
    if i < 0 {
      DigitsRoundTrip(-i);
      ParseNegative(Digits(-i), -i);
    } else {
      DigitsRoundTrip(i);
      ParseDigits(Digits(i), i);
    }
  }

  /** Digits alone read as their value. */
  lemma ParseDigits(d: seq<char>, n: nat)
    requires |d| > 0 && (forall i :: 0 <= i < |d| ==> '0' <= d[i] <= '9') && DigitsValue(d) == n
    ensures ParseInt(d) == Some(n)
  {
    assert d[0] != '-';
  }

  /** A minus sign followed by digits reads as the negated value of the digits. */
  lemma ParseNegative(d: seq<char>, n: nat)
    requires |d| > 0 && (forall i :: 0 <= i < |d| ==> '0' <= d[i] <= '9') && DigitsValue(d) == n
    ensures ParseInt("-" + d) == Some(-(n as int))
  {
    var s := "-" + d;
    assert s[0] == '-' && s[1..] == d;
    assert forall k :: 1 <= k < |s| ==> s[k] == d[k - 1];
  }

  lemma DisplayIntHasNoDot(i: int)
    ensures forall j :: 0 <= j < |DisplayInt(i)| ==> DisplayInt(i)[j] != '.'
  {
    if i < 0 {
      var d := Digits(-i);
      forall j | 1 <= j < |"-" + d| ensures ("-" + d)[j] != '.' {
        assert ("-" + d)[j] == d[j - 1];
      }
    }
  }

  /** The text a Range displays as determines the range: both ends can be read back. */
  lemma DisplayRangeRoundTrip(r: IntRange)
    ensures ParseRange(DisplayRange(r)) == Some(r)
  {
    var a, b := DisplayInt(r.start), DisplayInt(r.end);
    var s := DisplayRange(r);
    DisplayIntRoundTrip(r.start);
    DisplayIntRoundTrip(r.end);
    DisplayIntHasNoDot(r.start);
    assert s[..|a|] == a && s[|a| + 2..] == b;
    assert FirstDots(s, 0) == Some(|a|) by {
      assert s[|a|] == '.' && s[|a| + 1] == '.';
      assert forall j :: 0 <= j < |a| ==> s[j] == a[j];
    }
  }
}
