# Koto runtime value layer, modelled in Dafny

This project models the value layer of the Koto scripting language's runtime and the core library functions built directly on it:

- **`Value`** is the closed tagged union of everything a script can hold. The model covers its classification predicates (`is_callable`, `is_immutable`, `is_iterable`), `size`, `type_as_string`, `deep_copy`, the integer range type with `len`/`is_empty`, and `Display` for Null and Range (`value.dfy`: module `Values`).
- **`ValueString`** is a shared UTF-8 backing string plus a byte range. It can be sub-sliced by relative byte bounds (`with_bounds`) or by grapheme indices (`with_grapheme_indices`). Equality and hashing depend only on the text (`value_string.dfy`: `ValueStrings`). UTF-8 validity and char boundaries follow the syntax of section 4 of RFC 3629 (`utf8.dfy`: `Utf8`).
- **The iterator consumers** of the `iterator` module are `all`, `any`, `consume`, `count`, `find`, `position`, `last`, `fold`, `sum`, `product`, `min`, `max`, `min_max`, `skip`, `next`, `to_list`, `to_tuple` and `to_map`, plus the helpers `collect_pair`, `fold_with_operator`, `run_iterator_comparison(_by_key)` and `compare_values(_with_key)` (`iterator.dfy`: `Iterators`).
  - An iterator is the finite sequence of outputs it produces: a value, a value pair, or an error.
  - The virtual machine's services are fields of a `Vm` value: `make_iterator`, calling a function, and running a binary operator.
  - Each consumer is a method with the source's loop, its early returns, and its checks on the shape of its arguments. Its `ensures` ties the result to a recursive specification function. Lemmas then prove the properties the library promises: short-circuiting, first-error propagation, tie-breaking, empty-input results, and last-write-wins for maps.
- **The `num4` module**: `make_num4`, `with`, the lane accessors, `num4_from_iterator` and `num4_error` (`num4.dfy`: `Num4Core`).
- **The `string` module**: `contains`, `starts_with`, `ends_with`, `is_empty`, `format` with a lone string, `from_bytes`, `trim`, and the two argument-error helpers (`string.dfy`: `Strings`).

Two mistakes in the source are logged under "## Findings". Each is modelled as written and also as evidently intended; the rest of the model uses the intended version.

Three behaviours of the code that a reader may not expect:

- `is_immutable` excludes Tuple, so a Tuple cannot be a map key.
- `contains` reports a non-string argument with the single-string error text, not the two-strings one.
- `with_grapheme_indices` uses the byte length, not the grapheme count, as the end when no end is given.

## Model

| member | source | states |
|---|---|---|
| Values.IntRange.Len | src/runtime/src/value.rs:404-411 | the size is the distance between the two ends: never negative, and one end is the other plus the size, whichever way the range runs |
| Values.IntRange.IsEmpty | src/runtime/src/value.rs:413-415 | a range is empty exactly when its two ends coincide |
| Values.CallableIsNeitherKeyNorIterable | src/runtime/src/value.rs:135-159 | a callable value (SimpleFunction, Function, ExternalFunction) is neither immutable (so never a map key) nor iterable |
| Values.Size | src/runtime/src/value.rs:172-184 | a List or Tuple has its number of elements as size, a Map its number of entries, a TemporaryTuple its count, a Num2 2, a Num4 4 and any other value 1; so only those four containers can have size 0 |
| Values.NumberTypeNames | src/runtime/src/value.rs:187-193 | a Number reports "Int" or "Float" by its representation alone, so an integer zero and a float zero report different type names |
| Values.MapTypeName | src/runtime/src/value.rs:199-203 | a Map whose `@type` meta value is a string reports that string; any other `@type` value reports the error text; no `@type` reports "Map" |
| Values.DeepCopyEqual | src/runtime/src/value.rs:109-133 | a deep copy holds the same content as the original at every depth: the same elements in a List or Tuple, the same keys and copied values in a Map, the same remaining outputs in an Iterator |
| Values.DeepCopyKeepsShape | src/runtime/src/value.rs:109-133 | a deep copy has the same size and the same type name as the original |
| Values.UsizeOf | src/runtime/src/core/iterator.rs:569 | a count taken from a number is below 2^64; it is the integer itself when that is in range, and the float truncated toward zero when that is in range |
| Values.DisplayIntRoundTrip | src/runtime/src/value.rs:271 | the decimal text an integer range end is displayed as reads back as that integer |
| Values.DisplayRangeRoundTrip | src/runtime/src/value.rs:271 | the text `{start}..{end}` a Range displays as determines the range: splitting at the first `..` gives back both ends |
| Utf8.StrGet | src/runtime/src/value_string.rs:39 | `str::get(a..b)` succeeds exactly when `a <= b <= len` and both ends are char boundaries, and then gives the bytes between them |
| ValueStrings.AsStr | src/runtime/src/value_string.rs:122-125 | the text of a string is as long as its byte range |
| ValueStrings.AsStrValid | src/runtime/src/value_string.rs:120-125 | the bounds of every string were checked when it was made, so its text is always valid UTF-8 |
| ValueStrings.New | src/runtime/src/value_string.rs:23-26 | a string made from data views all of it: its text is the data |
| ValueStrings.Empty | src/runtime/src/value_string.rs:31-33 | the empty string's text is empty |
| ValueStrings.NewWithBounds | src/runtime/src/value_string.rs:38-44 | Some exactly when the range is in order, within the data and cut on char boundaries; the result shares the data and its text is that slice |
| ValueStrings.BoundaryShift | src/runtime/src/value_string.rs:50-53 | an offset within the view is a char boundary of the view exactly when the shifted offset is one of the shared data |
| ValueStrings.WithBoundsCheck | src/runtime/src/value_string.rs:50-53 | the check on the shifted bounds against the shared data is exactly the slice check on the view, and the shifted slice of the data is the slice of the view |
| ValueStrings.WithBounds | src/runtime/src/value_string.rs:49-61 | Some exactly when the relative range is a valid slice of the current text; the result shares the data, is shifted by the current start, and its text is that sub-slice of the current text |
| ValueStrings.EqualHashesAlike | src/runtime/src/value_string.rs:128-144 | two strings with equal text hash alike, whatever data and bounds they have |
| ValueStrings.SliceEqualsCopy | src/runtime/src/value_string.rs:128-137 | a sub-slice is equal to a fresh string made of the same text, even though they share no data |
| ValueStrings.WithBoundsWhole | src/runtime/src/value_string.rs:49-61 | `with_bounds(0..len)` gives back the same string |
| ValueStrings.WithBoundsCompose | src/runtime/src/value_string.rs:49-61 | slicing a slice is slicing the original at the summed offsets |
| ValueStrings.ComposeDefined | src/runtime/src/value_string.rs:49-61 | an inner slice of a slice is defined exactly when the slice of the original at the summed offsets is |
| ValueStrings.GraphemeCount | src/runtime/src/value_string.rs:116-118 | a string never has more graphemes than bytes, and has none only when it is empty |
| ValueStrings.CountAtMostLength | src/runtime/src/value_string.rs:116-118 | a segmentation into non-empty graphemes has at most as many graphemes as the text has bytes |
| ValueStrings.JoinGraphemesIsSlice | src/runtime/src/value_string.rs:76-101 | the graphemes from `a` up to `b`, joined, are the text between the offset where grapheme `a` starts and where grapheme `b` starts |
| ValueStrings.GraphemeSlice | src/runtime/src/value_string.rs:63-68 | as intended: Some exactly when `start <= end <= count` (end defaulting to the count); the text is then the joined graphemes from `start` up to `end` |
| ValueStrings.WithGraphemeIndices | src/runtime/src/value_string.rs:69-113 | the loop as written gives the same text (or the same None) as the intended slice for every end except `Some(0)`, for which it returns None |
| ValueStrings.SliceAtOffsets | src/runtime/src/value_string.rs:106-112 | the bounds the loop records, from the end of grapheme `start - 1` to the end of grapheme `end - 1`, give the intended grapheme slice |
| ValueStrings.EmptySlice | src/runtime/src/value_string.rs:92-96 | when start equals end, the empty string is the intended grapheme slice |
| ValueStrings.OnePastTheEnd | src/runtime/src/value_string.rs:98-101 | indexing one past the last grapheme is allowed: `'xyz'[1..3]` is `'yz'` |
| Iterators.CollectPair | src/runtime/src/core/iterator.rs:755-760 | a pair becomes a 2-tuple value; a value or an error is unchanged; the result is never a pair |
| Iterators.CollectPairIdempotent | src/runtime/src/core/iterator.rs:755-760 | collecting pairs twice is the same as collecting them once |
| Iterators.All | src/runtime/src/core/iterator.rs:17-52 | the loop returns what the short-circuit specification gives for `all`; without an iterable and a callable it is a type error naming the arguments |
| Iterators.Any | src/runtime/src/core/iterator.rs:54-89 | the loop returns what the short-circuit specification gives for `any`; without an iterable and a callable it is a type error naming the arguments |
| Iterators.AllUndecided | src/runtime/src/core/iterator.rs:17-52 | `all` is true exactly when the predicate returns true for every output, so it is true on an empty iterator |
| Iterators.AnyUndecided | src/runtime/src/core/iterator.rs:54-89 | `any` is false exactly when the predicate returns false for every output, so it is false on an empty iterator |
| Iterators.ShortCircuitDecided | src/runtime/src/core/iterator.rs:31-37 | `all` is false at the first output the predicate rejects, after accepting every earlier one |
| Iterators.ShortCircuitIgnoresRest | src/runtime/src/core/iterator.rs:17-89 | once `all` or `any` is decided (a decisive Bool, an error, or a non-Bool result), outputs after that point are never looked at |
| Iterators.AnyIsNotAllOfNegation | src/runtime/src/core/iterator.rs:17-89 | `any p` is `not all (not p)`, with errors passed through unchanged |
| Iterators.Find | src/runtime/src/core/iterator.rs:205-239 | the loop returns the specification's first accepted value, with pairs collected; a type error for bad arguments |
| Iterators.Position | src/runtime/src/core/iterator.rs:480-518 | the loop returns the specification's first accepted index, or Null; a type error for bad arguments |
| Iterators.PositionIsFirstAccepted | src/runtime/src/core/iterator.rs:480-518 | `position` gives index `k` exactly when the predicate accepts output `k` after rejecting every earlier output |
| Iterators.PositionNoneIsAllRejected | src/runtime/src/core/iterator.rs:480-518 | `position` finds nothing exactly when the predicate rejects every output |
| Iterators.FindAgreesWithPosition | src/runtime/src/core/iterator.rs:205-239 | `find` returns the output at the index `position` reports (Null when there is none), given a predicate that sees a pair and its tuple alike |
| Iterators.FirstErrorIsFirst | src/runtime/src/core/iterator.rs:158-171 | the error reported is carried by an error output that has no error output before it |
| Iterators.Count | src/runtime/src/core/iterator.rs:158-171 | the number of outputs, a pair counting as one; the first error output is returned instead |
| Iterators.Consume | src/runtime/src/core/iterator.rs:121-151 | without a function, Null unless an output is an error (then the first such error); with a function, the specification's first failure among outputs and calls, in order |
| Iterators.ConsumeErrors | src/runtime/src/core/iterator.rs:121-151 | with a function that never fails, only the iterator's own errors can fail `consume`; a failing call is reported when no error comes before it |
| Iterators.Last | src/runtime/src/core/iterator.rs:353-370 | the final output, pair collected, or Null for an empty iterator; the first error output is returned instead |
| Iterators.CollectValues | src/runtime/src/core/iterator.rs:613-631 | the pushing loop yields the collected values in order, or the first error output's error |
| Iterators.ToList | src/runtime/src/core/iterator.rs:613-631 | a List of the collected values in source order, or the first error; a type error for bad arguments |
| Iterators.ToTuple | src/runtime/src/core/iterator.rs:705-723 | a Tuple of the collected values in source order, or the first error; a type error for bad arguments |
| Iterators.CollectedAgree | src/runtime/src/core/iterator.rs:613-631 | on an iterator with no error output, `to_list` gives one element per output, element `k` being output `k` with its pair collected; `count` reports that list's size; `last` gives its last element, or Null when it is empty |
| Iterators.Fold | src/runtime/src/core/iterator.rs:251-293 | the loop threads `f(acc, value)` over the outputs in order, stopping at the first error or failing call; a type error for bad arguments |
| Iterators.FoldSplit | src/runtime/src/core/iterator.rs:251-293 | a fold can be split at any output: fold the first part, then continue from its result over the rest |
| Iterators.FoldWithOperator | src/runtime/src/core/iterator.rs:762-781 | the loop applies the binary operator as a left fold, stopping at the first error output or failing operation |
| Iterators.Sum | src/runtime/src/core/iterator.rs:583-598 | a left fold with Add from 0, or from the given initial value |
| Iterators.Product | src/runtime/src/core/iterator.rs:520-535 | a left fold with Multiply from 1, or from the given initial value |
| Iterators.FoldOperatorIsFold | src/runtime/src/core/iterator.rs:762-781 | `sum` and `product` are `fold` with a function that applies the operator |
| Iterators.SumOfIntegers | src/runtime/src/core/iterator.rs:583-598 | with integer addition, the sum of integers is their arithmetic total plus the seed |
| Iterators.CompareValues | src/runtime/src/core/iterator.rs:840-855 | the result is one of the two values, and there is one exactly when `<` returns a Bool |
| Iterators.CompareValuesWithKey | src/runtime/src/core/iterator.rs:860-881 | the result is one of the two (value, key) pairs, and there is one exactly when `<` on the keys returns a Bool |
| Iterators.RunIteratorComparison | src/runtime/src/core/iterator.rs:783-806 | the loop keeps the specification's running minimum or maximum, or Null for an empty iterator |
| Iterators.RunIteratorComparisonByKey | src/runtime/src/core/iterator.rs:808-835 | the keyed loop keeps the specification's running (value, key) pair and returns its value, or Null |
| Iterators.MinOrMax | src/runtime/src/core/iterator.rs:372-402 | `min` and `max`, with or without a key function, return the comparison's result; anything else is a type error |
| Iterators.ComparisonIsExtreme | src/runtime/src/core/iterator.rs:783-806 | under a strict weak order, `min` finds an element no element is less than, and `max` one that no element is greater than |
| Iterators.ComparisonTies | src/runtime/src/core/iterator.rs:840-855 | on an empty iterator both give Null; of two tied elements, `min` keeps the later one and `max` the earlier one |
| Iterators.ComparisonNeedsBool | src/runtime/src/core/iterator.rs:849-852 | a non-Bool result of `<` is an error naming the type of what was returned |
| Iterators.SelfKeyCompare | src/runtime/src/core/iterator.rs:860-881 | comparing values keyed by themselves makes the same choice, or fails the same way, as comparing the values |
| Iterators.IdentityKeyComparison | src/runtime/src/core/iterator.rs:808-835 | with a key function returning its argument, the keyed comparison gives the plain one's result |
| Iterators.MinMax | src/runtime/src/core/iterator.rs:404-468 | the loop keeps the specification's running (min, max) pair, with or without a key function |
| Iterators.MinMaxIsMinAndMax | src/runtime/src/core/iterator.rs:404-468 | `min_max` succeeds exactly when both `min` and `max` do, and its pair is (`min`, `max`) |
| Iterators.Skip | src/runtime/src/core/iterator.rs:563-581 | calls `next` up to n times, returning the first error met, else the iterator of what is left; a negative n or bad arguments give a type error |
| Iterators.SkipDiscards | src/runtime/src/core/iterator.rs:563-581 | skipping succeeds exactly when none of the first n outputs is an error, and leaves the outputs after them; skipping past the end leaves nothing |
| Iterators.SkipSuffix | src/runtime/src/core/iterator.rs:563-581 | skipping from a position depends only on the outputs from there on |
| Iterators.SkipCompose | src/runtime/src/core/iterator.rs:563-581 | skipping `a` and then `b` is skipping `a + b` |
| Iterators.Next | src/runtime/src/core/iterator.rs:470-478 | on an Iterator argument, gives the first remaining output (collected) or its error, and leaves the iterator holding exactly the outputs after it; an exhausted iterator gives Null and is unchanged; any other argument is a type error |
| Iterators.NextAfterSkip | src/runtime/src/core/iterator.rs:470-478 | after skipping n outputs, `next` gives output n (collected), its error, or Null past the end, and a second `next` on the same iterator gives output n + 1 |
| Iterators.FindKey | src/runtime/src/core/iterator.rs:659 | the position found holds the first entry whose key is the same as the key sought, and None means no entry has it |
| Iterators.Insert | src/runtime/src/core/iterator.rs:659 | inserting keeps the number of entries exactly when the key is already present, and otherwise adds one entry; every existing entry keeps its place and its key, and a new key is appended last with its value |
| Iterators.InsertLookup | src/runtime/src/core/iterator.rs:659 | after inserting, the key maps to the new value and every other key maps to what it mapped to before |
| Iterators.ToMap | src/runtime/src/core/iterator.rs:633-664 | the loop builds the specification's map: (key, value) from each pair or 2-tuple, (value, Null) otherwise; a mutable key is an error; the first error output aborts |
| Iterators.InsertKeepsKeys | src/runtime/src/core/iterator.rs:652-659 | inserting an immutable key keeps the keys distinct and immutable |
| Iterators.ToMapKeys | src/runtime/src/core/iterator.rs:633-664 | a map made by `to_map` has distinct, immutable keys |
| Iterators.ToMapKeepsOrder | src/runtime/src/core/iterator.rs:633-664 | `to_map` keeps insertion order: entries already present keep their places and keys, and later keys only follow them |
| Iterators.ToMapKeepsOtherKeys | src/runtime/src/core/iterator.rs:633-664 | keys that no later output uses keep their values |
| Iterators.ToMapLastWins | src/runtime/src/core/iterator.rs:633-664 | a key maps to the value of its last occurrence |
| Num4Core.Num4Error | src/runtime/src/core/num4.rs:138-140 | a type error naming the arguments |
| Num4Core.SetLane | src/runtime/src/core/num4.rs:83-88 | lane `i` takes the new value and the other three lanes are unchanged |
| Num4Core.Num4FromIterator | src/runtime/src/core/num4.rs:142-153 | the loop fills the lanes from zero as the specification of `num4_from_iterator` does |
| Num4Core.FromIteratorReadsFour | src/runtime/src/core/num4.rs:144 | outputs after the fourth are never read |
| Num4Core.FromIteratorLanes | src/runtime/src/core/num4.rs:142-153 | when the first outputs (up to four) are numbers, lane `k` holds output `k` and lanes with no output stay 0 |
| Num4Core.FromIteratorRejects | src/runtime/src/core/num4.rs:146-149 | the first non-Number among the first four outputs is a type error naming it |
| Num4Core.MakeNum4 | src/runtime/src/core/num4.rs:27-49 | one number fills all four lanes; 2 or 3 numbers are padded with zeros; 4 fill in order; a Num2 fills two lanes and zeroes the rest; a Num4 is returned unchanged; another iterable is read as `num4_from_iterator` does; anything else is a type error |
| Num4Core.With | src/runtime/src/core/num4.rs:80-93 | an index below 4 replaces that lane only and leaves the other three unchanged; a larger index is an error naming it; bad arguments give the Num4 type error |
| Num4Core.LaneAccess | src/runtime/src/core/num4.rs:95-133 | reading a lane succeeds exactly on a single Num4 argument, and gives that lane as a float; other arguments give the Num4 type error naming them |
| Num4Core.AccessorsReadLanes | src/runtime/src/core/num4.rs:95-133 | `x`/`r` read lane 0, `y`/`g` lane 1, `z`/`b` lane 2 and `w`/`a` lane 3, each reading back what `make_num4` put there |
| Strings.ExpectedStringError | src/runtime/src/core/string.rs:191-193 | a type error naming the arguments |
| Strings.ExpectedTwoStringsError | src/runtime/src/core/string.rs:195-197 | a type error naming the arguments |
| Strings.FindBytesFromIsFirst | src/runtime/src/core/string.rs:31 | the byte search finds the first offset where the pattern occurs, and finds nothing when it occurs nowhere |
| Strings.ContainsIff | src/runtime/src/core/string.rs:30-33 | the search succeeds exactly when the text is some bytes, then the pattern, then some more bytes |
| Strings.StartsWithIff | src/runtime/src/core/string.rs:139-142 | the prefix comparison holds exactly when the text is the pattern followed by something |
| Strings.EndsWithIff | src/runtime/src/core/string.rs:35-38 | the suffix comparison holds exactly when the text is something followed by the pattern |
| Strings.Contains | src/runtime/src/core/string.rs:30-33 | true exactly when the pattern occurs somewhere in the text; other arguments give the single-string error |
| Strings.StartsWith | src/runtime/src/core/string.rs:139-142 | true exactly when the pattern occurs at offset 0; other arguments give the two-strings error |
| Strings.EndsWith | src/runtime/src/core/string.rs:35-38 | true exactly when the pattern fits and occurs at the end of the text; other arguments give the two-strings error |
| Strings.PrefixOccurs | src/runtime/src/core/string.rs:140 | comparing from the start holds exactly when the pattern occurs at offset 0 |
| Strings.SuffixOccurs | src/runtime/src/core/string.rs:36 | comparing from the end holds exactly when the pattern occurs where it would end the text |
| Strings.PrefixIsContained | src/runtime/src/core/string.rs:139-142 | a text that starts with a pattern contains it |
| Strings.SuffixIsContained | src/runtime/src/core/string.rs:35-38 | a text that ends with a pattern contains it |
| Strings.SelfPattern | src/runtime/src/core/string.rs:30-38 | every string starts with, ends with and contains an equal string |
| Strings.EmptyPattern | src/runtime/src/core/string.rs:30-38 | every string starts with, ends with and contains the empty string |
| Strings.IsEmpty | src/runtime/src/core/string.rs:89-92 | true exactly when the string equals the empty string; other arguments give the single-string error |
| Strings.Format | src/runtime/src/core/string.rs:45-59 | a lone string is returned unchanged; with further arguments the formatter's result or error is passed on; no leading string is a type error |
| Strings.ByteOf | src/runtime/src/core/string.rs:71-74 | an integer gives a byte exactly when it is in 0..=255, and gives itself; a float gives one exactly when it lies strictly between -1 and 256, truncated toward zero |
| Strings.StringFromBytes | src/runtime/src/core/string.rs:81-84 | succeeds exactly when the bytes are valid UTF-8, and the string's text is then those bytes; otherwise the UTF-8 validation error |
| Strings.FromBytes | src/runtime/src/core/string.rs:61-87 | the loop collects the bytes as the specification does, then makes the string from them; a non-iterable argument is a type error |
| Strings.BytesFromAll | src/runtime/src/core/string.rs:68-79 | collecting succeeds exactly when every output is a byte, and then the bytes are the outputs' bytes in order |
| Strings.BytesFromFirstFailure | src/runtime/src/core/string.rs:68-79 | the first output that is not a byte decides the error: an error output is passed on, an out-of-range number is reported, anything else is a type error |
| Strings.FromBytesRoundTrip | src/runtime/src/core/string.rs:61-87 | collecting a string's own bytes and making a string from them gives a string equal to the original |
| Strings.FindStopsAt | src/runtime/src/core/string.rs:175 | `find` stops at a char boundary where a character that is not whitespace starts |
| Strings.FindSkipsWhitespace | src/runtime/src/core/string.rs:175 | every character before the one `find` reports is whitespace |
| Strings.FindNone | src/runtime/src/core/string.rs:180 | when `find` reports nothing, every character is whitespace |
| Strings.RFindBeforeTrimEnd | src/runtime/src/core/string.rs:177 | `rfind` finds something exactly when a trimmed end exists; the end is the start `rfind` reports plus that character's width |
| Strings.FindBeforeTrimEnd | src/runtime/src/core/string.rs:175-177 | `find` finds something exactly when a trimmed end exists, and it lies before that end |
| Strings.TrimEndSkipsWhitespace | src/runtime/src/core/string.rs:177 | every character after the trimmed end is whitespace |
| Strings.TrimEndAfterKept | src/runtime/src/core/string.rs:177 | the character just before the trimmed end is not whitespace |
| Strings.TrimmedMiddle | src/runtime/src/core/string.rs:175-179 | a text with some non-whitespace is trimmed from the first such character to the end of the last one |
| Strings.TrimmedAway | src/runtime/src/core/string.rs:180 | an all-whitespace text is trimmed to nothing |
| Strings.TrimBounds | src/runtime/src/core/string.rs:173-186 | the trimmed bounds are two char boundaries in order within the text |
| Strings.TrimBoundsTrim | src/runtime/src/core/string.rs:173-186 | the trimmed bounds leave only whitespace before and after, and the kept text is empty or starts and ends with non-whitespace |
| Strings.TrimSplitsChars | src/runtime/src/core/string.rs:173-186 | cutting where the text is trimmed splits its characters into leading whitespace, the kept characters and trailing whitespace |
| Strings.TrimString | src/runtime/src/core/string.rs:175-180 | the trimmed view shares the data, and its text is the current text between the trimmed bounds |
| Strings.Trim | src/runtime/src/core/string.rs:173-186 | a single string gives its trimmed view; other arguments give the single-string error |
| Strings.TrimAsWrittenOnAscii | src/runtime/src/core/string.rs:177-178 | when the last character kept is one byte long (or nothing is kept), the code as written gives the trimmed view |
| Strings.TrimAsWrittenPanics | src/runtime/src/core/string.rs:178 | when the last character kept is wider than one byte, `end + 1` is not a char boundary, so `with_bounds` fails and `unwrap` panics |
| Strings.TrimAsWrittenPanicsOnAccent | src/runtime/src/core/string.rs:178 | "é" (bytes C3 A9) has nothing to trim, yet the code as written panics on it; the intended trim returns it unchanged |

## Left out

- I/O, threads and the virtual machine. `make_iterator`, calling a function and running a binary operator are fields of the `Vm` parameter, pure functions returning a value or an error. Side effects of script functions called by the consumers are not modelled.
- Reference counting, sharing and aliasing. `Rc` data, `ValueList`/`ValueMap` interior mutability, and `ValueIterator::make_copy` are modelled as values. So a deep copy is equal to the original, and `with_bounds` sharing is stated as the same data sequence.
- Key equality in maps: the runtime's `ValueKey` comparison is the `sameKey` parameter, assumed to be an equivalence where a lemma needs it. Hashing is not modelled for map keys; value_key.rs is not part of this model.
- Meta keys other than `@type`, and copying of a Map's meta map, which `deep_copy` leaves as is.
- Iterator adaptors and generators (`chain`, `chunks`, `each`, `cycle`, `enumerate`, `flatten`, `intersperse`, `keep`, `reversed`, `take`, `windows`, `zip`, `generate`, `repeat`, `iter`, `copy`) and the conversions `to_num2`, `to_num4`, `to_string`. Their implementations are not part of this model. The iterator is the finite sequence of what it produces, so infinite iterators are not covered.
- `Display` for values other than Null and Range, and the Debug formats.
- Values.DisplayNull: states nothing beyond returning "null".
- Floating point. Floats and Num2/Num4 lanes are exact reals: there is no f32/f64 rounding, no NaN, no infinities, and `compare_values` on floats uses whatever `<` the `Vm` gives.
- Values.UsizeOf: assumes that `usize::from` on a number wraps an integer and truncates-and-saturates a float. value_number.rs is not part of this model.
- Strings.ByteOf: assumes that `as_i64` truncates a float toward zero. value_number.rs is not part of this model.
- Values.IntRange.Len: does not model overflow of the `isize` subtraction or of the `as usize` cast for ranges wider than `isize::MAX`, because integers are unbounded here.
- ValueStrings.WithBounds: does not model `usize` overflow when the relative bounds are shifted by the current start, because offsets are unbounded here.
- Iterators.Count: does not model a count beyond `i64::MAX`, because integers are unbounded here.
- Iterators.Skip: returns the iterator of the remaining outputs, but does not say what happens to the iterator the script passed in. value_iterator.rs, which defines how a cloned iterator shares its position, is not part of this model.
- Num4Core.MakeNum4: lanes are exact reals, so the f32 conversion of each number is not modelled.
- The other `num4` functions (`length`, `lerp`, `max`, `min`, `normalize`, `product`, `sum`) depend on float rounding.
- The other `string` functions: `bytes`, `chars`, `lines`, `split`, `escape`, `replace`, `size`, `to_lowercase`, `to_uppercase`, `to_number`. They depend on Unicode tables, float parsing or iterator types that are not part of this model.
- `format` with further arguments: `format_string` is the `formatString` parameter of `Strings.Format`.
- Grapheme segmentation (Unicode Standard Annex #29) is not computed. A segmentation is a given list of grapheme start offsets: increasing, on char boundaries, starting at 0, one per non-empty grapheme.
- `char::is_whitespace` is the Unicode White_Space property written out. Case folding and normalisation are not modelled.
- ValueStrings.WithGraphemeIndices: release-build semantics. `debug_assert!` is off, and `end - 1` wraps around in `usize`. A debug build panics instead where the model returns None.
- The REPL, the WebAssembly example, module registration (`koto.rs`, `lib.rs`) and the scripted failure tests are outside the value layer.

## Findings

| source | as written | input that shows it | evidently intended | confidence | as-written member | corrected member |
|---|---|---|---|---|---|---|
| src/runtime/src/value_string.rs:92 | `i == end_unwrapped - 1` for `end == Some(0)` wraps around (or panics in a debug build), so no grapheme matches and the call returns None | `'xyz'[0..0]`: start 0, end Some(0); also any `s[0..0]` on the empty string | `start == end` within range gives the empty string, as the comment at line 94 says | not executed | ValueStrings.WithGraphemeIndices | ValueStrings.GraphemeSlice |
| src/runtime/src/core/string.rs:178 | `end + 1` after `rfind` is one byte past the start of the last non-whitespace character, which is inside that character when it is wider than one byte; `with_bounds` then fails and `unwrap` panics | `string.trim "é"` (bytes C3 A9): `rfind` gives 0, and 1 is not a char boundary | the kept text ends after the whole last non-whitespace character | not executed | Strings.TrimAsWrittenPanicsOnAccent | Strings.TrimBounds |
