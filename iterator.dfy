/** The `iterator` core library module's consumers: the functions that drive an iterator
    to its end (or to the first output that decides the result). An iterator is the finite
    sequence of outputs it produces; the virtual machine that makes iterators, calls
    functions and runs binary operators is a parameter. */
module Iterators {
  import opened Wrappers
  import opened Utf8
  import opened ValueStrings
  import opened Values

  /** How arguments are passed to a called function. */
  datatype CallArgs = Single(arg: Value) | AsTuple(first: Value, second: Value) | Separate(args: seq<Value>)

  datatype BinaryOp = Add | Multiply | Less

  /** Whether a comparison keeps the lesser value (`No`) or the greater one (`Yes`). */
  datatype InvertResult = Yes | No

  /** The services the consumers ask of the virtual machine. */
  datatype Vm = Vm(
    makeIterator: Value -> Result<seq<Output>>,
    runFunction: (Value, CallArgs) -> Result<Value>,
    runBinaryOp: (BinaryOp, Value, Value) -> Result<Value>)

  const AllAnyExpected := "an iterable value and predicate Function as arguments"
  const PredicateExpected := "an iterable value and a predicate Function as arguments"
  const BoolExpected := "a Bool to be returned from the predicate"
  const IterableExpected := "an iterable value as argument"
  const ConsumeExpected := "an Iterable Value (and optional Function) as arguments"
  const FoldExpected := "an iterable value, initial value, and folding Function as arguments"
  const InitialValueExpected := "an iterable value and optional initial value as arguments"
  const KeyFunctionExpected := "an iterable value and an optional key function as arguments"
  const IteratorExpected := "an Iterator as argument"
  const SkipExpected := "an iterable value and non-negative number as arguments"

  /** `collect_pair`: a pair of values becomes a 2-tuple. */
  function CollectPair(o: Output): (r: Output)
    ensures !r.ValuePair?
    ensures o.ValuePair? ==> r == Output.Value(Tuple([o.first, o.second]))
    ensures !o.ValuePair? ==> r == o
  {
    match o
    case ValuePair(first, second) => Output.Value(Tuple([first, second]))
    case _ => o
  }

  /** Collecting pairs twice is collecting them once. */
  lemma CollectPairIdempotent(o: Output)
    ensures CollectPair(CollectPair(o)) == CollectPair(o)
  {
  }

  /** The value an output carries once its pair (if any) is collected. */
  function Collected(o: Output): (r: Value)
    ensures !o.Error? ==> CollectPair(o) == Output.Value(r)
  {
    match o
    case Value(v) => v
    case ValuePair(a, b) => Tuple([a, b])
    case Error(_) => Null
  }

  /** How a predicate or callback receives an output: a single value, or a pair as a tuple. */
  function ArgsOf(o: Output): CallArgs {
    if o.ValuePair? then AsTuple(o.first, o.second) else Single(Collected(o))
  }

  predicate IterableAndCallable(args: seq<Value>) {
    |args| == 2 && IsIterable(args[0]) && IsCallable(args[1])
  }

  predicate OneIterable(args: seq<Value>) {
    |args| == 1 && IsIterable(args[0])
  }

  function BoolValue(r: Result<bool>): Result<Value> {
    match r
    case Ok(b) => Ok(Bool(b))
    case Err(e) => Err(e)
  }

  /** The predicate accepts output `o`. */
  predicate Accepts(vm: Vm, f: Value, o: Output) {
    !o.Error? && vm.runFunction(f, ArgsOf(o)) == Ok(Bool(true))
  }

  /** The predicate rejects output `o`. */
  predicate Rejects(vm: Vm, f: Value, o: Output) {
    !o.Error? && vm.runFunction(f, ArgsOf(o)) == Ok(Bool(false))
  }

  // ---------------------------------------------------------------------------------
  // all, any

  /** The outcome of `all` (`decisive` false) or `any` (`decisive` true) over the outputs
      from index `i` on: the first predicate result equal to `decisive` decides; an error
      output, a failing predicate or a non-Bool result aborts. */
  function ShortCircuitFrom(vm: Vm, f: Value, outs: seq<Output>, i: nat, decisive: bool): Result<bool>
    requires i <= |outs|
    decreases |outs| - i
  {
    if i == |outs| then Ok(!decisive)
    else if outs[i].Error? then Err(outs[i].error)
    else
      match vm.runFunction(f, ArgsOf(outs[i]))
      case Ok(Bool(b)) => if b == decisive then Ok(decisive) else ShortCircuitFrom(vm, f, outs, i + 1, decisive)
      case Ok(unexpected) => Err(TypeError(BoolExpected, [unexpected]))
      case Err(e) => Err(e)
  }

  /** `all`. */
  method All(vm: Vm, args: seq<Value>) returns (r: Result<Value>)
    ensures !IterableAndCallable(args) ==> r == Err(TypeError(AllAnyExpected, args))
    ensures IterableAndCallable(args) && vm.makeIterator(args[0]).Err? ==> r == Err(vm.makeIterator(args[0]).error)
    ensures IterableAndCallable(args) && vm.makeIterator(args[0]).Ok? ==>
      r == BoolValue(ShortCircuitFrom(vm, args[1], vm.makeIterator(args[0]).value, 0, false))
  {
    if !IterableAndCallable(args) {
      return Err(TypeError(AllAnyExpected, args));
    }
    var iterable, test := args[0], args[1];
    var made := vm.makeIterator(iterable);
    if made.Err? {
      return Err(made.error);
    }
    var outs := made.value;
    for i := 0 to |outs|
      invariant ShortCircuitFrom(vm, test, outs, 0, false) == ShortCircuitFrom(vm, test, outs, i, false)
    {
      var predicateResult: Result<Value>;
      match outs[i] {
        case Value(value) =>
          predicateResult := vm.runFunction(test, Single(value));
        case ValuePair(a, b) =>
          predicateResult := vm.runFunction(test, AsTuple(a, b));
        case Error(error) =>
          return Err(error);
      }
      match predicateResult {
        case Ok(Bool(result)) =>
          if !result {
            return Ok(Bool(false));
          }
        case Ok(unexpected) =>
          return Err(TypeError(BoolExpected, [unexpected]));
        case Err(error) =>
          return Err(error);
      }
    }
    return Ok(Bool(true));
  }

  /** `any`. */
  method Any(vm: Vm, args: seq<Value>) returns (r: Result<Value>)
    ensures !IterableAndCallable(args) ==> r == Err(TypeError(AllAnyExpected, args))
    ensures IterableAndCallable(args) && vm.makeIterator(args[0]).Err? ==> r == Err(vm.makeIterator(args[0]).error)
    ensures IterableAndCallable(args) && vm.makeIterator(args[0]).Ok? ==>
      r == BoolValue(ShortCircuitFrom(vm, args[1], vm.makeIterator(args[0]).value, 0, true))
  {
    if !IterableAndCallable(args) {
      return Err(TypeError(AllAnyExpected, args));
    }
    var iterable, test := args[0], args[1];
    var made := vm.makeIterator(iterable);
    if made.Err? {
      return Err(made.error);
    }
    var outs := made.value;
    for i := 0 to |outs|
      invariant ShortCircuitFrom(vm, test, outs, 0, true) == ShortCircuitFrom(vm, test, outs, i, true)
    {
      var predicateResult: Result<Value>;
      match outs[i] {
        case Value(value) =>
          predicateResult := vm.runFunction(test, Single(value));
        case ValuePair(a, b) =>
          predicateResult := vm.runFunction(test, AsTuple(a, b));
        case Error(error) =>
          return Err(error);
      }
      match predicateResult {
        case Ok(Bool(result)) =>
          if result {
            return Ok(Bool(true));
          }
        case Ok(unexpected) =>
          return Err(TypeError(BoolExpected, [unexpected]));
        case Err(error) =>
          return Err(error);
      }
    }
    return Ok(Bool(false));
  }

  /** `all` is true exactly when the predicate accepts every output (so it is true on an
      empty iterator), and `any` is false exactly when the predicate rejects every output. */
  lemma {:induction false} AllUndecided(vm: Vm, f: Value, outs: seq<Output>, i: nat)
    requires i <= |outs|
    ensures ShortCircuitFrom(vm, f, outs, i, false) == Ok(true) <==>
      forall k :: i <= k < |outs| ==> Accepts(vm, f, outs[k])
    decreases |outs| - i
  {
    if i < |outs| {
      AllUndecided(vm, f, outs, i + 1);
    }
  }

  lemma {:induction false} AnyUndecided(vm: Vm, f: Value, outs: seq<Output>, i: nat)
    requires i <= |outs|
    ensures ShortCircuitFrom(vm, f, outs, i, true) == Ok(false) <==>
      forall k :: i <= k < |outs| ==> Rejects(vm, f, outs[k])
    decreases |outs| - i
  {
    if i < |outs| {
      AnyUndecided(vm, f, outs, i + 1);
    }
  }

  /** `all` returns false, and `any` true, exactly at the first output the predicate
      decides on, having accepted (for `all`) or rejected (for `any`) every earlier one. */
  lemma {:induction false} ShortCircuitDecided(vm: Vm, f: Value, outs: seq<Output>, i: nat, k: nat)
    requires i <= k < |outs|
    requires forall j :: i <= j < k ==> Accepts(vm, f, outs[j])
    requires Rejects(vm, f, outs[k])
    ensures ShortCircuitFrom(vm, f, outs, i, false) == Ok(false)
    decreases k - i
  {
    if i < k {
      ShortCircuitDecided(vm, f, outs, i + 1, k);
    }
  }

  /** Once an outcome is decided (a decisive result, an error or a non-Bool result),
      outputs after it are never looked at: the predicate is not called on them. */
  lemma {:induction false} ShortCircuitIgnoresRest(vm: Vm, f: Value, outs: seq<Output>, rest: seq<Output>, i: nat, decisive: bool)
    requires i <= |outs|
    requires ShortCircuitFrom(vm, f, outs, i, decisive) != Ok(!decisive)
    ensures ShortCircuitFrom(vm, f, outs + rest, i, decisive) == ShortCircuitFrom(vm, f, outs, i, decisive)
    decreases |outs| - i
  {
    assert (outs + rest)[i] == outs[i];
    if !outs[i].Error? && vm.runFunction(f, ArgsOf(outs[i])) == Ok(Bool(!decisive)) {
      ShortCircuitIgnoresRest(vm, f, outs, rest, i + 1, decisive);
    }
  }

  /** The same machine with every Bool a function returns negated. */
  function NegatedVm(vm: Vm): Vm {
    vm.(runFunction := (g, a) => match vm.runFunction(g, a) case Ok(Bool(b)) => Ok(Bool(!b)) case other => other)
  }

  function Negated(r: Result<bool>): Result<bool> {
    match r
    case Ok(b) => Ok(!b)
    case Err(e) => Err(e)
  }

  /** `any p` is `not all (not p)`. */
  lemma {:induction false} AnyIsNotAllOfNegation(vm: Vm, f: Value, outs: seq<Output>, i: nat)
    requires i <= |outs|
    ensures ShortCircuitFrom(vm, f, outs, i, true) == Negated(ShortCircuitFrom(NegatedVm(vm), f, outs, i, false))
    decreases |outs| - i
  {
    if i < |outs| {
      AnyIsNotAllOfNegation(vm, f, outs, i + 1);
    }
  }

  // ---------------------------------------------------------------------------------
  // find, position

  /** The index of the first output the predicate accepts (from `i` on), or None. */
  function PositionFrom(vm: Vm, f: Value, outs: seq<Output>, i: nat): Result<Option<nat>>
    requires i <= |outs|
    decreases |outs| - i
  {
    if i == |outs| then Ok(None)
    else if outs[i].Error? then Err(outs[i].error)
    else
      match vm.runFunction(f, ArgsOf(outs[i]))
      case Ok(Bool(b)) => if b then Ok(Some(i)) else PositionFrom(vm, f, outs, i + 1)
      case Ok(unexpected) => Err(TypeError(BoolExpected, [unexpected]))
      case Err(e) => Err(e)
  }

  /** The first output the predicate accepts (from `i` on), its pair collected into a
      tuple before the predicate sees it; Null when there is none. */
  function FindFrom(vm: Vm, f: Value, outs: seq<Output>, i: nat): Result<Value>
    requires i <= |outs|
    decreases |outs| - i
  {
    if i == |outs| then Ok(Null)
    else if outs[i].Error? then Err(outs[i].error)
    else
      var value := Collected(outs[i]);
      match vm.runFunction(f, Single(value))
      case Ok(Bool(b)) => if b then Ok(value) else FindFrom(vm, f, outs, i + 1)
      case Ok(unexpected) => Err(TypeError(BoolExpected, [unexpected]))
      case Err(e) => Err(e)
  }

  /** `find`. */
  method Find(vm: Vm, args: seq<Value>) returns (r: Result<Value>)
    ensures !IterableAndCallable(args) ==> r == Err(TypeError(PredicateExpected, args))
    ensures IterableAndCallable(args) && vm.makeIterator(args[0]).Err? ==> r == Err(vm.makeIterator(args[0]).error)
    ensures IterableAndCallable(args) && vm.makeIterator(args[0]).Ok? ==>
      r == FindFrom(vm, args[1], vm.makeIterator(args[0]).value, 0)
  {
    if !IterableAndCallable(args) {
      return Err(TypeError(PredicateExpected, args));
    }
    var iterable, test := args[0], args[1];
    var made := vm.makeIterator(iterable);
    if made.Err? {
      return Err(made.error);
    }
    var outs := made.value;
    for i := 0 to |outs|
      invariant FindFrom(vm, test, outs, 0) == FindFrom(vm, test, outs, i)
    {
      match CollectPair(outs[i]) {
        case Value(value) =>
          match vm.runFunction(test, Single(value)) {
            case Ok(Bool(result)) =>
              if result {
                return Ok(value);
              }
            case Ok(unexpected) =>
              return Err(TypeError(BoolExpected, [unexpected]));
            case Err(error) =>
              return Err(error);
          }
        case Error(error) =>
          return Err(error);
      }
    }
    return Ok(Null);
  }

  function PositionValue(r: Result<Option<nat>>): Result<Value> {
    match r
    case Ok(Some(i)) => Ok(Number(I64(i)))
    case Ok(None) => Ok(Null)
    case Err(e) => Err(e)
  }

  /** `position`. */
  method Position(vm: Vm, args: seq<Value>) returns (r: Result<Value>)
    ensures !IterableAndCallable(args) ==> r == Err(TypeError(PredicateExpected, args))
    ensures IterableAndCallable(args) && vm.makeIterator(args[0]).Err? ==> r == Err(vm.makeIterator(args[0]).error)
    ensures IterableAndCallable(args) && vm.makeIterator(args[0]).Ok? ==>
      r == PositionValue(PositionFrom(vm, args[1], vm.makeIterator(args[0]).value, 0))
  {
    if !IterableAndCallable(args) {
      return Err(TypeError(PredicateExpected, args));
    }
    var iterable, test := args[0], args[1];
    var made := vm.makeIterator(iterable);
    if made.Err? {
      return Err(made.error);
    }
    var outs := made.value;
    for i := 0 to |outs|
      invariant PositionFrom(vm, test, outs, 0) == PositionFrom(vm, test, outs, i)
    {
      var predicateResult: Result<Value>;
      match outs[i] {
        case Value(value) =>
          predicateResult := vm.runFunction(test, Single(value));
        case ValuePair(a, b) =>
          predicateResult := vm.runFunction(test, AsTuple(a, b));
        case Error(error) =>
          return Err(error);
      }
      match predicateResult {
        case Ok(Bool(result)) =>
          if result {
            return Ok(Number(I64(i)));
          }
        case Ok(unexpected) =>
          return Err(TypeError(BoolExpected, [unexpected]));
        case Err(error) =>
          return Err(error);
      }
    }
    return Ok(Null);
  }

  /** `position` finds index `k` exactly when the predicate accepts output `k` after
      rejecting every earlier one, and finds nothing exactly when it rejects them all. */
  lemma {:induction false} PositionIsFirstAccepted(vm: Vm, f: Value, outs: seq<Output>, i: nat, k: nat)
    requires i <= |outs|
    ensures PositionFrom(vm, f, outs, i) == Ok(Some(k)) <==>
      i <= k < |outs| && Accepts(vm, f, outs[k]) && forall j :: i <= j < k ==> Rejects(vm, f, outs[j])
    decreases |outs| - i
  {
    if i < |outs| {
      PositionIsFirstAccepted(vm, f, outs, i + 1, k);
    }
  }

  lemma {:induction false} PositionNoneIsAllRejected(vm: Vm, f: Value, outs: seq<Output>, i: nat)
    requires i <= |outs|
    ensures PositionFrom(vm, f, outs, i) == Ok(None) <==>
      forall j :: i <= j < |outs| ==> Rejects(vm, f, outs[j])
    decreases |outs| - i
  {
    if i < |outs| {
      PositionNoneIsAllRejected(vm, f, outs, i + 1);
    }
  }

  /** The predicate cannot tell a pair passed as a tuple from the same pair collected
      into a tuple value. */
  predicate PairsSeenAlike(vm: Vm, f: Value, outs: seq<Output>) {
    forall k :: 0 <= k < |outs| && outs[k].ValuePair? ==>
      vm.runFunction(f, Single(Collected(outs[k]))) == vm.runFunction(f, ArgsOf(outs[k]))
  }

  function FoundValue(r: Result<Option<nat>>, outs: seq<Output>): Result<Value> {
    match r
    case Ok(Some(k)) => if k < |outs| then Ok(Collected(outs[k])) else Ok(Null)
    case Ok(None) => Ok(Null)
    case Err(e) => Err(e)
  }

  /** `find` returns the element at the index `position` reports (Null when there is
      none), and fails with the same error, as long as the predicate treats a pair the
      same whether it is passed as a tuple of arguments or as one tuple value. */
  lemma {:induction false} FindAgreesWithPosition(vm: Vm, f: Value, outs: seq<Output>, i: nat)
    requires i <= |outs| && PairsSeenAlike(vm, f, outs)
    ensures FindFrom(vm, f, outs, i) == FoundValue(PositionFrom(vm, f, outs, i), outs)
    decreases |outs| - i
  {
    if i < |outs| && !outs[i].Error? {
      assert vm.runFunction(f, Single(Collected(outs[i]))) == vm.runFunction(f, ArgsOf(outs[i]));
      FindAgreesWithPosition(vm, f, outs, i + 1);
    }
  }

  // ---------------------------------------------------------------------------------
  // count, consume, last, to_list, to_tuple

  /** The error carried by the first `Error` output from index `i` on. */
  function FirstError(outs: seq<Output>, i: nat): (r: Option<RuntimeError>)
    requires i <= |outs|
    ensures r.None? <==> forall k :: i <= k < |outs| ==> !outs[k].Error?
    decreases |outs| - i
  {
    if i == |outs| then None
    else if outs[i].Error? then Some(outs[i].error)
    else FirstError(outs, i + 1)
  }

  /** The reported error is the one of an `Error` output with none before it. */
  lemma {:induction false} FirstErrorIsFirst(outs: seq<Output>, i: nat)
    requires i <= |outs| && FirstError(outs, i).Some?
    ensures exists k :: (i <= k < |outs| && outs[k] == Error(FirstError(outs, i).value) &&
                         forall j :: i <= j < k ==> !outs[j].Error?)
    decreases |outs| - i
  {
    if !outs[i].Error? {
      FirstErrorIsFirst(outs, i + 1);
    }
  }

  /** `value`, unless an output is an error: then the first such error. */
  function UnlessError(outs: seq<Output>, value: Value): Result<Value> {
    ErrorOr(FirstError(outs, 0), value)
  }

  /** The error, when there is one, else `value`. */
  function ErrorOr(error: Option<RuntimeError>, value: Value): Result<Value> {
    match error
    case Some(e) => Err(e)
    case None => Ok(value)
  }

  /** The value of the final output, pair collected, or Null when there is none. */
  function LastValue(outs: seq<Output>): Value {
    if |outs| == 0 then Null else Collected(outs[|outs| - 1])
  }

  /** The values of the outputs, in order, pairs collected into tuples. */
  function ValuesOf(outs: seq<Output>): seq<Value> {
    seq(|outs|, k requires 0 <= k < |outs| => Collected(outs[k]))
  }

  /** `count`: the number of outputs, a pair counting as one. */
  method Count(vm: Vm, args: seq<Value>) returns (r: Result<Value>)
    ensures !OneIterable(args) ==> r == Err(TypeError(IterableExpected, args))
    ensures OneIterable(args) && vm.makeIterator(args[0]).Err? ==> r == Err(vm.makeIterator(args[0]).error)
    ensures OneIterable(args) && vm.makeIterator(args[0]).Ok? ==>
      r == UnlessError(vm.makeIterator(args[0]).value, Number(I64(|vm.makeIterator(args[0]).value|)))
  {
    if !OneIterable(args) {
      return Err(TypeError(IterableExpected, args));
    }
    var made := vm.makeIterator(args[0]);
    if made.Err? {
      return Err(made.error);
    }
    var outs := made.value;
    var result := 0;
    for i := 0 to |outs|
      invariant FirstError(outs, 0) == FirstError(outs, i)
      invariant result == i
    {
      if outs[i].Error? {
        return Err(outs[i].error);
      }
      result := result + 1;
    }
    return Ok(Number(I64(result)));
  }

  /** What `consume` with a function returns, from index `i` on: the first error output
      or the first error the function raises; otherwise Null. */
  function ConsumeFrom(vm: Vm, f: Value, outs: seq<Output>, i: nat): Result<Value>
    requires i <= |outs|
    decreases |outs| - i
  {
    if i == |outs| then Ok(Null)
    else if outs[i].Error? then Err(outs[i].error)
    else
      match vm.runFunction(f, ArgsOf(outs[i]))
      case Err(e) => Err(e)
      case Ok(_) => ConsumeFrom(vm, f, outs, i + 1)
  }

  /** `consume`, with or without a function to call on each output. */
  method Consume(vm: Vm, args: seq<Value>) returns (r: Result<Value>)
    ensures !OneIterable(args) && !IterableAndCallable(args) ==> r == Err(TypeError(ConsumeExpected, args))
    ensures OneIterable(args) && vm.makeIterator(args[0]).Err? ==> r == Err(vm.makeIterator(args[0]).error)
    ensures OneIterable(args) && vm.makeIterator(args[0]).Ok? ==>
      r == UnlessError(vm.makeIterator(args[0]).value, Null)
    ensures IterableAndCallable(args) && vm.makeIterator(args[0]).Err? ==> r == Err(vm.makeIterator(args[0]).error)
    ensures IterableAndCallable(args) && vm.makeIterator(args[0]).Ok? ==>
      r == ConsumeFrom(vm, args[1], vm.makeIterator(args[0]).value, 0)
  {
    if OneIterable(args) {
      var made := vm.makeIterator(args[0]);
      if made.Err? {
        return Err(made.error);
      }
      var outs := made.value;
      for i := 0 to |outs|
        invariant FirstError(outs, 0) == FirstError(outs, i)
      {
        if outs[i].Error? {
          return Err(outs[i].error);
        }
      }
      return Ok(Null);
    } else if IterableAndCallable(args) {
      var f := args[1];
      var made := vm.makeIterator(args[0]);
      if made.Err? {
        return Err(made.error);
      }
      var outs := made.value;
      for i := 0 to |outs|
        invariant ConsumeFrom(vm, f, outs, 0) == ConsumeFrom(vm, f, outs, i)
      {
        var called: Result<Value>;
        match outs[i] {
          case Value(value) =>
            called := vm.runFunction(f, Single(value));
          case ValuePair(a, b) =>
            called := vm.runFunction(f, AsTuple(a, b));
          case Error(error) =>
            return Err(error);
        }
        if called.Err? {
          return Err(called.error);
        }
      }
      return Ok(Null);
    } else {
      return Err(TypeError(ConsumeExpected, args));
    }
  }

  /** A function that never fails leaves `consume` with only the iterator's own errors to
      report, as without a function; one that fails at output `k`, after every earlier
      output was consumed, makes `consume` fail with that error. */
  lemma {:induction false} ConsumeErrors(vm: Vm, f: Value, outs: seq<Output>, i: nat)
    requires i <= |outs|
    ensures (forall k :: i <= k < |outs| && !outs[k].Error? ==> vm.runFunction(f, ArgsOf(outs[k])).Ok?) ==>
      ConsumeFrom(vm, f, outs, i) == ErrorOr(FirstError(outs, i), Null)
    ensures forall k :: (i <= k < |outs| && !outs[k].Error? && vm.runFunction(f, ArgsOf(outs[k])).Err? &&
                         (forall j :: i <= j < k ==> !outs[j].Error? && vm.runFunction(f, ArgsOf(outs[j])).Ok?)) ==>
                        ConsumeFrom(vm, f, outs, i) == Err(vm.runFunction(f, ArgsOf(outs[k])).error)
    decreases |outs| - i
  {
    if i < |outs| {
      ConsumeErrors(vm, f, outs, i + 1);
    }
  }

  /** `last`: the final value (a pair collected into a tuple), or Null for an empty iterator. */
  method Last(vm: Vm, args: seq<Value>) returns (r: Result<Value>)
    ensures !OneIterable(args) ==> r == Err(TypeError(IterableExpected, args))
    ensures OneIterable(args) && vm.makeIterator(args[0]).Err? ==> r == Err(vm.makeIterator(args[0]).error)
    ensures OneIterable(args) && vm.makeIterator(args[0]).Ok? ==>
      r == UnlessError(vm.makeIterator(args[0]).value, LastValue(vm.makeIterator(args[0]).value))
  {
    if !OneIterable(args) {
      return Err(TypeError(IterableExpected, args));
    }
    var made := vm.makeIterator(args[0]);
    if made.Err? {
      return Err(made.error);
    }
    var outs := made.value;
    var result := Null;
    for i := 0 to |outs|
      invariant FirstError(outs, 0) == FirstError(outs, i)
      invariant result == if i == 0 then Null else Collected(outs[i - 1])
    {
      match CollectPair(outs[i]) {
        case Value(value) =>
          result := value;
        case Error(error) =>
          return Err(error);
      }
    }
    return Ok(result);
  }

  /** The loop shared by `to_list` and `to_tuple`: push each value, in order. */
  method CollectValues(outs: seq<Output>) returns (r: Result<seq<Value>>)
    ensures FirstError(outs, 0).Some? ==> r == Err(FirstError(outs, 0).value)
    ensures FirstError(outs, 0).None? ==> r == Ok(ValuesOf(outs))
  {
    var result := [];
    for i := 0 to |outs|
      invariant FirstError(outs, 0) == FirstError(outs, i)
      invariant result == ValuesOf(outs[..i])
    {
      match CollectPair(outs[i]) {
        case Value(value) =>
          result := result + [value];
        case Error(error) =>
          return Err(error);
      }
      assert ValuesOf(outs[..i + 1]) == ValuesOf(outs[..i]) + [Collected(outs[i])];
    }
    assert outs[..|outs|] == outs;
    return Ok(result);
  }

  /** `to_list`: the values in order, one element per output. */
  method ToList(vm: Vm, args: seq<Value>) returns (r: Result<Value>)
    ensures !OneIterable(args) ==> r == Err(TypeError(IterableExpected, args))
    ensures OneIterable(args) && vm.makeIterator(args[0]).Err? ==> r == Err(vm.makeIterator(args[0]).error)
    ensures OneIterable(args) && vm.makeIterator(args[0]).Ok? ==>
      r == UnlessError(vm.makeIterator(args[0]).value, List(ValuesOf(vm.makeIterator(args[0]).value)))
  {
    if !OneIterable(args) {
      return Err(TypeError(IterableExpected, args));
    }
    var made := vm.makeIterator(args[0]);
    if made.Err? {
      return Err(made.error);
    }
    var collected := CollectValues(made.value);
    match collected {
      case Ok(values) => return Ok(List(values));
      case Err(error) => return Err(error);
    }
  }

  /** `to_tuple`: the values in order, one element per output. */
  method ToTuple(vm: Vm, args: seq<Value>) returns (r: Result<Value>)
    ensures !OneIterable(args) ==> r == Err(TypeError(IterableExpected, args))
    ensures OneIterable(args) && vm.makeIterator(args[0]).Err? ==> r == Err(vm.makeIterator(args[0]).error)
    ensures OneIterable(args) && vm.makeIterator(args[0]).Ok? ==>
      r == UnlessError(vm.makeIterator(args[0]).value, Tuple(ValuesOf(vm.makeIterator(args[0]).value)))
  {
    if !OneIterable(args) {
      return Err(TypeError(IterableExpected, args));
    }
    var made := vm.makeIterator(args[0]);
    if made.Err? {
      return Err(made.error);
    }
    var collected := CollectValues(made.value);
    match collected {
      case Ok(values) => return Ok(Tuple(values));
      case Err(error) => return Err(error);
    }
  }

  /** On an error-free iterator, `to_list`, `count` and `last` agree. The `UnlessError`
      terms below are the results `ToList`, `Count` and `Last` promise for these outputs:
      the list holds each output at its position, pair collected; `count` reports the
      list's size; `last` gives its last element, or Null when it is empty. */
  lemma CollectedAgree(outs: seq<Output>)
    requires FirstError(outs, 0).None?
    ensures UnlessError(outs, List(ValuesOf(outs))) == Ok(List(ValuesOf(outs)))
    ensures forall k :: 0 <= k < |outs| ==> Output.Value(ValuesOf(outs)[k]) == CollectPair(outs[k])
    ensures UnlessError(outs, Number(I64(|outs|))) == Ok(Number(I64(Size(List(ValuesOf(outs))))))
    ensures |outs| > 0 ==> UnlessError(outs, LastValue(outs)) == Ok(ValuesOf(outs)[|outs| - 1])
    ensures |outs| == 0 ==> UnlessError(outs, LastValue(outs)) == Ok(Null)
  {
  }

  // ---------------------------------------------------------------------------------
  // fold, sum, product

  /** `fold` from index `i` on, with accumulator `acc`: `f(acc, value)` in order. */
  function FoldFrom(vm: Vm, f: Value, acc: Value, outs: seq<Output>, i: nat): Result<Value>
    requires i <= |outs|
    decreases |outs| - i
  {
    if i == |outs| then Ok(acc)
    else if outs[i].Error? then Err(outs[i].error)
    else
      match vm.runFunction(f, Separate([acc, Collected(outs[i])]))
      case Ok(next) => FoldFrom(vm, f, next, outs, i + 1)
      case Err(e) => Err(e)
  }

  /** `fold`. */
  method Fold(vm: Vm, args: seq<Value>) returns (r: Result<Value>)
    ensures !(|args| == 3 && IsIterable(args[0]) && IsCallable(args[2])) ==> r == Err(TypeError(FoldExpected, args))
    ensures |args| == 3 && IsIterable(args[0]) && IsCallable(args[2]) && vm.makeIterator(args[0]).Err? ==> r == Err(vm.makeIterator(args[0]).error)
    ensures |args| == 3 && IsIterable(args[0]) && IsCallable(args[2]) && vm.makeIterator(args[0]).Ok? ==>
      r == FoldFrom(vm, args[2], args[1], vm.makeIterator(args[0]).value, 0)
  {
    if !(|args| == 3 && IsIterable(args[0]) && IsCallable(args[2])) {
      return Err(TypeError(FoldExpected, args));
    }
    var f := args[2];
    var made := vm.makeIterator(args[0]);
    if made.Err? {
      return Err(made.error);
    }
    var outs := made.value;
    var foldResult := args[1];
    for i := 0 to |outs|
      invariant FoldFrom(vm, f, args[1], outs, 0) == FoldFrom(vm, f, foldResult, outs, i)
    {
      match CollectPair(outs[i]) {
        case Value(value) =>
          match vm.runFunction(f, Separate([foldResult, value])) {
            case Ok(result) => foldResult := result;
            case Err(error) => return Err(error);
          }
        case Error(error) =>
          return Err(error);
      }
    }
    return Ok(foldResult);
  }

  /** A fold can be split at any output: folding the first `n` outputs and then the rest
      from that result is folding them all, and a failure in the first part is final. */
  lemma {:induction false} FoldSplit(vm: Vm, f: Value, acc: Value, outs: seq<Output>, n: nat)
    requires n <= |outs|
    ensures FoldFrom(vm, f, acc, outs[..n], 0).Ok? ==>
      FoldFrom(vm, f, acc, outs, 0) == FoldFrom(vm, f, FoldFrom(vm, f, acc, outs[..n], 0).value, outs, n)
    ensures FoldFrom(vm, f, acc, outs[..n], 0).Err? ==>
      FoldFrom(vm, f, acc, outs, 0) == FoldFrom(vm, f, acc, outs[..n], 0)
  {
    FoldSplitFrom(vm, f, acc, outs, 0, n);
  }

  lemma {:induction false} FoldSplitFrom(vm: Vm, f: Value, acc: Value, outs: seq<Output>, i: nat, n: nat)
    requires i <= n <= |outs|
    ensures FoldFrom(vm, f, acc, outs[..n], i).Ok? ==>
      FoldFrom(vm, f, acc, outs, i) == FoldFrom(vm, f, FoldFrom(vm, f, acc, outs[..n], i).value, outs, n)
    ensures FoldFrom(vm, f, acc, outs[..n], i).Err? ==>
      FoldFrom(vm, f, acc, outs, i) == FoldFrom(vm, f, acc, outs[..n], i)
    decreases n - i
  {
    if i < n {
      assert outs[..n][i] == outs[i];
      if !outs[i].Error? {
        match vm.runFunction(f, Separate([acc, Collected(outs[i])])) {
          case Ok(next) => FoldSplitFrom(vm, f, next, outs, i + 1, n);
          case Err(_) =>
        }
      }
    }
  }

  /** `fold_with_operator` from index `i` on: `acc op value` in order. */
  function FoldOperatorFrom(vm: Vm, op: BinaryOp, acc: Value, outs: seq<Output>, i: nat): Result<Value>
    requires i <= |outs|
    decreases |outs| - i
  {
    if i == |outs| then Ok(acc)
    else if outs[i].Error? then Err(outs[i].error)
    else
      match vm.runBinaryOp(op, acc, Collected(outs[i]))
      case Ok(next) => FoldOperatorFrom(vm, op, next, outs, i + 1)
      case Err(e) => Err(e)
  }

  /** `fold_with_operator`. */
  method FoldWithOperator(vm: Vm, iterable: Value, initialValue: Value, op: BinaryOp) returns (r: Result<Value>)
    ensures vm.makeIterator(iterable).Err? ==> r == Err(vm.makeIterator(iterable).error)
    ensures vm.makeIterator(iterable).Ok? ==>
      r == FoldOperatorFrom(vm, op, initialValue, vm.makeIterator(iterable).value, 0)
  {
    var made := vm.makeIterator(iterable);
    if made.Err? {
      return Err(made.error);
    }
    var outs := made.value;
    var result := initialValue;
    for i := 0 to |outs|
      invariant FoldOperatorFrom(vm, op, initialValue, outs, 0) == FoldOperatorFrom(vm, op, result, outs, i)
    {
      match CollectPair(outs[i]) {
        case Value(rhs) =>
          var applied := vm.runBinaryOp(op, result, rhs);
          if applied.Err? {
            return Err(applied.error);
          }
          result := applied.value;
        case Error(error) =>
          return Err(error);
      }
    }
    return Ok(result);
  }

  /** The iterable and starting value of `sum` (seed 0) and `product` (seed 1). */
  function FoldOperatorArgs(args: seq<Value>, seed: int): Option<(Value, Value)> {
    if |args| == 1 && IsIterable(args[0]) then Some((args[0], Number(I64(seed))))
    else if |args| == 2 && IsIterable(args[0]) then Some((args[0], args[1]))
    else None
  }

  /** `sum`. */
  method Sum(vm: Vm, args: seq<Value>) returns (r: Result<Value>)
    ensures FoldOperatorArgs(args, 0).None? ==> r == Err(TypeError(InitialValueExpected, args))
    ensures FoldOperatorArgs(args, 0).Some? && vm.makeIterator(args[0]).Err? ==> r == Err(vm.makeIterator(args[0]).error)
    ensures FoldOperatorArgs(args, 0).Some? && vm.makeIterator(args[0]).Ok? ==>
      r == FoldOperatorFrom(vm, Add, FoldOperatorArgs(args, 0).value.1, vm.makeIterator(args[0]).value, 0)
  {
    var parsed := FoldOperatorArgs(args, 0);
    if parsed.None? {
      return Err(TypeError(InitialValueExpected, args));
    }
    r := FoldWithOperator(vm, parsed.value.0, parsed.value.1, Add);
  }

  /** `product`. */
  method Product(vm: Vm, args: seq<Value>) returns (r: Result<Value>)
    ensures FoldOperatorArgs(args, 1).None? ==> r == Err(TypeError(InitialValueExpected, args))
    ensures FoldOperatorArgs(args, 1).Some? && vm.makeIterator(args[0]).Err? ==> r == Err(vm.makeIterator(args[0]).error)
    ensures FoldOperatorArgs(args, 1).Some? && vm.makeIterator(args[0]).Ok? ==>
      r == FoldOperatorFrom(vm, Multiply, FoldOperatorArgs(args, 1).value.1, vm.makeIterator(args[0]).value, 0)
  {
    var parsed := FoldOperatorArgs(args, 1);
    if parsed.None? {
      return Err(TypeError(InitialValueExpected, args));
    }
    r := FoldWithOperator(vm, parsed.value.0, parsed.value.1, Multiply);
  }

  /** `sum` and `product` are `fold` with a function that applies the operator. */
  lemma {:induction false} FoldOperatorIsFold(vm: Vm, op: BinaryOp, f: Value, acc: Value, outs: seq<Output>, i: nat)
    requires i <= |outs|
    requires forall a, b :: vm.runFunction(f, Separate([a, b])) == vm.runBinaryOp(op, a, b)
    ensures FoldOperatorFrom(vm, op, acc, outs, i) == FoldFrom(vm, f, acc, outs, i)
    decreases |outs| - i
  {
    if i < |outs| && !outs[i].Error? {
      assert vm.runFunction(f, Separate([acc, Collected(outs[i])])) == vm.runBinaryOp(op, acc, Collected(outs[i]));
      match vm.runBinaryOp(op, acc, Collected(outs[i])) {
        case Ok(next) => FoldOperatorIsFold(vm, op, f, next, outs, i + 1);
        case Err(_) =>
      }
    }
  }

  function IntOf(o: Output): int {
    if o.Value? && o.value.Number? && o.value.n.I64? then o.value.n.i else 0
  }

  /** The integers of an iterator of integers, added up from index `i` on. */
  function IntTotal(outs: seq<Output>, i: nat): int
    requires i <= |outs|
    decreases |outs| - i
  {
    if i == |outs| then 0
    else IntOf(outs[i]) + IntTotal(outs, i + 1)
  }

  /** With integer addition, `sum` of integers is their arithmetic total plus the seed. */
  lemma {:induction false} SumOfIntegers(vm: Vm, seed: int, outs: seq<Output>, i: nat)
    requires i <= |outs|
    requires forall a: int, b: int :: vm.runBinaryOp(Add, Number(I64(a)), Number(I64(b))) == Ok(Number(I64(a + b)))
    requires forall k :: i <= k < |outs| ==> outs[k].Value? && outs[k].value.Number? && outs[k].value.n.I64?
    ensures FoldOperatorFrom(vm, Add, Number(I64(seed)), outs, i) == Ok(Number(I64(seed + IntTotal(outs, i))))
    decreases |outs| - i
  {
    if i < |outs| {
      var x := outs[i].value.n.i;
      assert vm.runBinaryOp(Add, Number(I64(seed)), Number(I64(x))) == Ok(Number(I64(seed + x)));
      SumOfIntegers(vm, seed + x, outs, i + 1);
    }
  }

  // ---------------------------------------------------------------------------------
  // min, max, min_max

  /** `compare_values`: runs `a < b` and keeps the lesser value (`No`) or the greater one
      (`Yes`); when `a < b` is false, `No` keeps `b` and `Yes` keeps `a`. */
  function CompareValues(vm: Vm, a: Value, b: Value, invert: InvertResult): (r: Result<Value>)
    ensures r.Ok? ==> r.value == a || r.value == b
    ensures r.Ok? <==> vm.runBinaryOp(Less, a, b).Ok? && vm.runBinaryOp(Less, a, b).value.Bool?
  {
    match (vm.runBinaryOp(Less, a, b), invert)
    case (Err(e), _) => Err(e)
    case (Ok(Bool(true)), No) => Ok(a)
    case (Ok(Bool(false)), No) => Ok(b)
    case (Ok(Bool(true)), Yes) => Ok(b)
    case (Ok(Bool(false)), Yes) => Ok(a)
    case (Ok(other), _) => Err(NonBoolComparison(TypeAsString(other)))
  }

  /** `compare_values_with_key`: the same choice between two (value, key) pairs, made on the keys. */
  function CompareValuesWithKey(vm: Vm, a: (Value, Value), b: (Value, Value), invert: InvertResult): (r: Result<(Value, Value)>)
    ensures r.Ok? ==> r.value == a || r.value == b
    ensures r.Ok? <==> vm.runBinaryOp(Less, a.1, b.1).Ok? && vm.runBinaryOp(Less, a.1, b.1).value.Bool?
  {
    match (vm.runBinaryOp(Less, a.1, b.1), invert)
    case (Err(e), _) => Err(e)
    case (Ok(Bool(true)), No) => Ok(a)
    case (Ok(Bool(false)), No) => Ok(b)
    case (Ok(Bool(true)), Yes) => Ok(b)
    case (Ok(Bool(false)), Yes) => Ok(a)
    case (Ok(other), _) => Err(NonBoolComparison(TypeAsString(other)))
  }

  /** `run_iterator_comparison` from index `i` on, with the value kept so far. */
  function ComparisonFrom(vm: Vm, invert: InvertResult, acc: Option<Value>, outs: seq<Output>, i: nat): Result<Option<Value>>
    requires i <= |outs|
    decreases |outs| - i
  {
    if i == |outs| then Ok(acc)
    else if outs[i].Error? then Err(outs[i].error)
    else
      var value := Collected(outs[i]);
      match acc
      case None => ComparisonFrom(vm, invert, Some(value), outs, i + 1)
      case Some(kept) =>
        match CompareValues(vm, kept, value, invert)
        case Ok(next) => ComparisonFrom(vm, invert, Some(next), outs, i + 1)
        case Err(e) => Err(e)
  }

  function OrNull(r: Result<Option<Value>>): Result<Value> {
    match r
    case Ok(Some(v)) => Ok(v)
    case Ok(None) => Ok(Null)
    case Err(e) => Err(e)
  }

  /** `run_iterator_comparison`. */
  method RunIteratorComparison(vm: Vm, iterable: Value, invert: InvertResult) returns (r: Result<Value>)
    ensures vm.makeIterator(iterable).Err? ==> r == Err(vm.makeIterator(iterable).error)
    ensures vm.makeIterator(iterable).Ok? ==>
      r == OrNull(ComparisonFrom(vm, invert, None, vm.makeIterator(iterable).value, 0))
  {
    var made := vm.makeIterator(iterable);
    if made.Err? {
      return Err(made.error);
    }
    var outs := made.value;
    var result: Option<Value> := None;
    for i := 0 to |outs|
      invariant ComparisonFrom(vm, invert, None, outs, 0) == ComparisonFrom(vm, invert, result, outs, i)
    {
      match CollectPair(outs[i]) {
        case Value(value) =>
          match result {
            case Some(kept) =>
              var compared := CompareValues(vm, kept, value, invert);
              if compared.Err? {
                return Err(compared.error);
              }
              result := Some(compared.value);
            case None =>
              result := Some(value);
          }
        case Error(error) =>
          return Err(error);
      }
    }
    return OrNull(Ok(result));
  }

  /** `run_iterator_comparison_by_key` from index `i` on, with the (value, key) kept so far. */
  function ComparisonByKeyFrom(vm: Vm, keyFn: Value, invert: InvertResult, acc: Option<(Value, Value)>, outs: seq<Output>, i: nat): Result<Option<(Value, Value)>>
    requires i <= |outs|
    decreases |outs| - i
  {
    if i == |outs| then Ok(acc)
    else if outs[i].Error? then Err(outs[i].error)
    else
      var value := Collected(outs[i]);
      match vm.runFunction(keyFn, Single(value))
      case Err(e) => Err(e)
      case Ok(key) =>
        match acc
        case None => ComparisonByKeyFrom(vm, keyFn, invert, Some((value, key)), outs, i + 1)
        case Some(kept) =>
          match CompareValuesWithKey(vm, kept, (value, key), invert)
          case Ok(next) => ComparisonByKeyFrom(vm, keyFn, invert, Some(next), outs, i + 1)
          case Err(e) => Err(e)
  }

  function FirstOrNull(r: Result<Option<(Value, Value)>>): Result<Value> {
    match r
    case Ok(Some(p)) => Ok(p.0)
    case Ok(None) => Ok(Null)
    case Err(e) => Err(e)
  }

  /** `run_iterator_comparison_by_key`. */
  method RunIteratorComparisonByKey(vm: Vm, iterable: Value, keyFn: Value, invert: InvertResult) returns (r: Result<Value>)
    ensures vm.makeIterator(iterable).Err? ==> r == Err(vm.makeIterator(iterable).error)
    ensures vm.makeIterator(iterable).Ok? ==>
      r == FirstOrNull(ComparisonByKeyFrom(vm, keyFn, invert, None, vm.makeIterator(iterable).value, 0))
  {
    var made := vm.makeIterator(iterable);
    if made.Err? {
      return Err(made.error);
    }
    var outs := made.value;
    var resultAndKey: Option<(Value, Value)> := None;
    for i := 0 to |outs|
      invariant ComparisonByKeyFrom(vm, keyFn, invert, None, outs, 0) == ComparisonByKeyFrom(vm, keyFn, invert, resultAndKey, outs, i)
    {
      match CollectPair(outs[i]) {
        case Value(value) =>
          var key := vm.runFunction(keyFn, Single(value));
          if key.Err? {
            return Err(key.error);
          }
          var valueAndKey := (value, key.value);
          match resultAndKey {
            case Some(kept) =>
              var compared := CompareValuesWithKey(vm, kept, valueAndKey, invert);
              if compared.Err? {
                return Err(compared.error);
              }
              resultAndKey := Some(compared.value);
            case None =>
              resultAndKey := Some(valueAndKey);
          }
        case Error(error) =>
          return Err(error);
      }
    }
    return FirstOrNull(Ok(resultAndKey));
  }

  /** `min` (`No`) and `max` (`Yes`), with or without a key function. */
  method MinOrMax(vm: Vm, args: seq<Value>, invert: InvertResult) returns (r: Result<Value>)
    ensures !OneIterable(args) && !IterableAndCallable(args) ==> r == Err(TypeError(KeyFunctionExpected, args))
    ensures OneIterable(args) && vm.makeIterator(args[0]).Err? ==> r == Err(vm.makeIterator(args[0]).error)
    ensures OneIterable(args) && vm.makeIterator(args[0]).Ok? ==>
      r == OrNull(ComparisonFrom(vm, invert, None, vm.makeIterator(args[0]).value, 0))
    ensures IterableAndCallable(args) && vm.makeIterator(args[0]).Err? ==> r == Err(vm.makeIterator(args[0]).error)
    ensures IterableAndCallable(args) && vm.makeIterator(args[0]).Ok? ==>
      r == FirstOrNull(ComparisonByKeyFrom(vm, args[1], invert, None, vm.makeIterator(args[0]).value, 0))
  {
    if OneIterable(args) {
      r := RunIteratorComparison(vm, args[0], invert);
    } else if IterableAndCallable(args) {
      r := RunIteratorComparisonByKey(vm, args[0], args[1], invert);
    } else {
      r := Err(TypeError(KeyFunctionExpected, args));
    }
  }

  /** `Less` behaves as the strict order `lt`, returning a Bool for every pair of values. */
  ghost predicate LessIs(vm: Vm, lt: (Value, Value) -> bool) {
    forall a, b :: vm.runBinaryOp(Less, a, b) == Ok(Bool(lt(a, b)))
  }

  /** `lt` is a strict weak order: irreflexive, transitive, and incomparability is
      transitive too. */
  ghost predicate StrictWeakOrder(lt: (Value, Value) -> bool) {
    (forall a :: !lt(a, a)) &&
    (forall a, b, c :: lt(a, b) && lt(b, c) ==> lt(a, c)) &&
    (forall a, b, c :: lt(a, c) ==> lt(a, b) || lt(b, c))
  }

  /** `x` would be preferred to `y`: smaller for `min`, greater for `max`. */
  predicate Beats(lt: (Value, Value) -> bool, invert: InvertResult, x: Value, y: Value) {
    if invert == No then lt(x, y) else lt(y, x)
  }

  /** Under a strict weak order `min` finds a value no element is less than, and `max`
      one no element is greater than; it is one of the elements (or the value already kept). */
  lemma {:induction false} ComparisonIsExtreme(vm: Vm, lt: (Value, Value) -> bool, invert: InvertResult, acc: Value, outs: seq<Output>, i: nat)
    requires LessIs(vm, lt) && StrictWeakOrder(lt)
    requires i <= |outs| && FirstError(outs, i).None?
    ensures ComparisonFrom(vm, invert, Some(acc), outs, i).Ok?
    ensures ComparisonFrom(vm, invert, Some(acc), outs, i).value.Some?
    ensures var m := ComparisonFrom(vm, invert, Some(acc), outs, i).value.value;
      && !Beats(lt, invert, acc, m)
      && (forall k :: i <= k < |outs| ==> !Beats(lt, invert, Collected(outs[k]), m))
      && (m == acc || exists k :: i <= k < |outs| && m == Collected(outs[k]))
    decreases |outs| - i
  {
    if i < |outs| {
      var value := Collected(outs[i]);
      assert vm.runBinaryOp(Less, acc, value) == Ok(Bool(lt(acc, value)));
      var next := CompareValues(vm, acc, value, invert).value;
      ComparisonIsExtreme(vm, lt, invert, next, outs, i + 1);
      var m := ComparisonFrom(vm, invert, Some(acc), outs, i).value.value;
      assert !Beats(lt, invert, next, m);
      if invert == No {
        assert lt(acc, value) && lt(value, m) ==> lt(acc, m);
        assert lt(acc, m) ==> lt(acc, value) || lt(value, m);
      } else {
        assert lt(m, acc) && lt(acc, value) ==> lt(m, value);
        assert lt(m, value) ==> lt(m, acc) || lt(acc, value);
      }
    }
  }

  /** On an empty iterator `min` and `max` give Null; of two elements neither of which is
      less than the other, `min` keeps the later and `max` the earlier. */
  lemma ComparisonTies(vm: Vm, a: Value, b: Value)
    requires vm.runBinaryOp(Less, a, b) == Ok(Bool(false))
    ensures OrNull(ComparisonFrom(vm, No, None, [], 0)) == Ok(Null)
    ensures OrNull(ComparisonFrom(vm, Yes, None, [], 0)) == Ok(Null)
    ensures OrNull(ComparisonFrom(vm, No, None, [Output.Value(a), Output.Value(b)], 0)) == Ok(b)
    ensures OrNull(ComparisonFrom(vm, Yes, None, [Output.Value(a), Output.Value(b)], 0)) == Ok(a)
  {
    var outs := [Output.Value(a), Output.Value(b)];
    assert Collected(outs[0]) == a && Collected(outs[1]) == b;
    assert CompareValues(vm, a, b, No) == Ok(b) && CompareValues(vm, a, b, Yes) == Ok(a);
    assert ComparisonFrom(vm, No, None, outs, 0) == ComparisonFrom(vm, No, Some(a), outs, 1) == ComparisonFrom(vm, No, Some(b), outs, 2);
    assert ComparisonFrom(vm, Yes, None, outs, 0) == ComparisonFrom(vm, Yes, Some(a), outs, 1) == ComparisonFrom(vm, Yes, Some(a), outs, 2);
  }

  /** A non-Bool result of `<` is an error naming the type of what was returned. */
  lemma ComparisonNeedsBool(vm: Vm, a: Value, b: Value, invert: InvertResult)
    requires vm.runBinaryOp(Less, a, b).Ok? && !vm.runBinaryOp(Less, a, b).value.Bool?
    ensures OrNull(ComparisonFrom(vm, invert, None, [Output.Value(a), Output.Value(b)], 0)) ==
      Err(NonBoolComparison(TypeAsString(vm.runBinaryOp(Less, a, b).value)))
  {
    var outs := [Output.Value(a), Output.Value(b)];
    assert ComparisonFrom(vm, invert, None, outs, 0) == ComparisonFrom(vm, invert, Some(a), outs, 1);
  }

  function WithSelfKey(acc: Option<Value>): Option<(Value, Value)> {
    match acc
    case Some(v) => Some((v, v))
    case None => None
  }

  function WithSelfKeys(r: Result<Option<Value>>): Result<Option<(Value, Value)>> {
    match r
    case Ok(acc) => Ok(WithSelfKey(acc))
    case Err(e) => Err(e)
  }

  /** Comparing values keyed by themselves compares the values. */
  lemma SelfKeyCompare(vm: Vm, kept: Value, value: Value, invert: InvertResult)
    ensures CompareValues(vm, kept, value, invert).Ok? ==>
      CompareValuesWithKey(vm, (kept, kept), (value, value), invert)
        == Ok((CompareValues(vm, kept, value, invert).value, CompareValues(vm, kept, value, invert).value))
    ensures CompareValues(vm, kept, value, invert).Err? ==>
      CompareValuesWithKey(vm, (kept, kept), (value, value), invert) == Err(CompareValues(vm, kept, value, invert).error)
  {
  }

  /** With a key function that returns its argument, the keyed comparison is the plain one. */
  lemma {:induction false} IdentityKeyComparison(vm: Vm, keyFn: Value, invert: InvertResult, acc: Option<Value>, outs: seq<Output>, i: nat)
    requires i <= |outs|
    requires forall v :: vm.runFunction(keyFn, Single(v)) == Ok(v)
    ensures ComparisonByKeyFrom(vm, keyFn, invert, WithSelfKey(acc), outs, i) == WithSelfKeys(ComparisonFrom(vm, invert, acc, outs, i))
    decreases |outs| - i
  {
    if i < |outs| && !outs[i].Error? {
      var value := Collected(outs[i]);
      assert vm.runFunction(keyFn, Single(value)) == Ok(value);
      match acc {
        case None =>
          IdentityKeyComparison(vm, keyFn, invert, Some(value), outs, i + 1);
        case Some(kept) =>
          SelfKeyCompare(vm, kept, value, invert);
          match CompareValues(vm, kept, value, invert) {
            case Ok(next) => IdentityKeyComparison(vm, keyFn, invert, Some(next), outs, i + 1);
            case Err(_) =>
          }
      }
    }
  }

  /** `min_max` from index `i` on, with the (min, max) kept so far. */
  function MinMaxFrom(vm: Vm, acc: Option<(Value, Value)>, outs: seq<Output>, i: nat): Result<Option<(Value, Value)>>
    requires i <= |outs|
    decreases |outs| - i
  {
    if i == |outs| then Ok(acc)
    else if outs[i].Error? then Err(outs[i].error)
    else
      var value := Collected(outs[i]);
      match acc
      case None => MinMaxFrom(vm, Some((value, value)), outs, i + 1)
      case Some((lo, hi)) =>
        match CompareValues(vm, lo, value, No)
        case Err(e) => Err(e)
        case Ok(lo') =>
          match CompareValues(vm, hi, value, Yes)
          case Err(e) => Err(e)
          case Ok(hi') => MinMaxFrom(vm, Some((lo', hi')), outs, i + 1)
  }

  /** The keyed `min_max` from index `i` on, with the ((min, key), (max, key)) kept so far. */
  function MinMaxByKeyFrom(vm: Vm, keyFn: Value, acc: Option<((Value, Value), (Value, Value))>, outs: seq<Output>, i: nat): Result<Option<((Value, Value), (Value, Value))>>
    requires i <= |outs|
    decreases |outs| - i
  {
    if i == |outs| then Ok(acc)
    else if outs[i].Error? then Err(outs[i].error)
    else
      var value := Collected(outs[i]);
      match vm.runFunction(keyFn, Single(value))
      case Err(e) => Err(e)
      case Ok(key) =>
        match acc
        case None => MinMaxByKeyFrom(vm, keyFn, Some(((value, key), (value, key))), outs, i + 1)
        case Some((lo, hi)) =>
          match CompareValuesWithKey(vm, lo, (value, key), No)
          case Err(e) => Err(e)
          case Ok(lo') =>
            match CompareValuesWithKey(vm, hi, (value, key), Yes)
            case Err(e) => Err(e)
            case Ok(hi') => MinMaxByKeyFrom(vm, keyFn, Some((lo', hi')), outs, i + 1)
  }

  function PairOrNull(r: Result<Option<(Value, Value)>>): Result<Value> {
    match r
    case Ok(Some((lo, hi))) => Ok(Tuple([lo, hi]))
    case Ok(None) => Ok(Null)
    case Err(e) => Err(e)
  }

  function KeyedPairOrNull(r: Result<Option<((Value, Value), (Value, Value))>>): Result<Value> {
    match r
    case Ok(Some((lo, hi))) => Ok(Tuple([lo.0, hi.0]))
    case Ok(None) => Ok(Null)
    case Err(e) => Err(e)
  }

  /** `min_max`, with or without a key function. */
  method MinMax(vm: Vm, args: seq<Value>) returns (r: Result<Value>)
    ensures !OneIterable(args) && !IterableAndCallable(args) ==> r == Err(TypeError(KeyFunctionExpected, args))
    ensures OneIterable(args) && vm.makeIterator(args[0]).Err? ==> r == Err(vm.makeIterator(args[0]).error)
    ensures OneIterable(args) && vm.makeIterator(args[0]).Ok? ==>
      r == PairOrNull(MinMaxFrom(vm, None, vm.makeIterator(args[0]).value, 0))
    ensures IterableAndCallable(args) && vm.makeIterator(args[0]).Err? ==> r == Err(vm.makeIterator(args[0]).error)
    ensures IterableAndCallable(args) && vm.makeIterator(args[0]).Ok? ==>
      r == KeyedPairOrNull(MinMaxByKeyFrom(vm, args[1], None, vm.makeIterator(args[0]).value, 0))
  {
    if OneIterable(args) {
      var made := vm.makeIterator(args[0]);
      if made.Err? {
        return Err(made.error);
      }
      var outs := made.value;
      var result: Option<(Value, Value)> := None;
      for i := 0 to |outs|
        invariant MinMaxFrom(vm, None, outs, 0) == MinMaxFrom(vm, result, outs, i)
      {
        match CollectPair(outs[i]) {
          case Value(value) =>
            match result {
              case Some((lo, hi)) =>
                var lo' := CompareValues(vm, lo, value, No);
                if lo'.Err? {
                  return Err(lo'.error);
                }
                var hi' := CompareValues(vm, hi, value, Yes);
                if hi'.Err? {
                  return Err(hi'.error);
                }
                result := Some((lo'.value, hi'.value));
              case None =>
                result := Some((value, value));
            }
          case Error(error) =>
            return Err(error);
        }
      }
      return PairOrNull(Ok(result));
    } else if IterableAndCallable(args) {
      var keyFn := args[1];
      var made := vm.makeIterator(args[0]);
      if made.Err? {
        return Err(made.error);
      }
      var outs := made.value;
      var result: Option<((Value, Value), (Value, Value))> := None;
      for i := 0 to |outs|
        invariant MinMaxByKeyFrom(vm, keyFn, None, outs, 0) == MinMaxByKeyFrom(vm, keyFn, result, outs, i)
      {
        match CollectPair(outs[i]) {
          case Value(value) =>
            var key := vm.runFunction(keyFn, Single(value));
            if key.Err? {
              return Err(key.error);
            }
            var valueAndKey := (value, key.value);
            match result {
              case Some((lo, hi)) =>
                var lo' := CompareValuesWithKey(vm, lo, valueAndKey, No);
                if lo'.Err? {
                  return Err(lo'.error);
                }
                var hi' := CompareValuesWithKey(vm, hi, valueAndKey, Yes);
                if hi'.Err? {
                  return Err(hi'.error);
                }
                result := Some((lo'.value, hi'.value));
              case None =>
                result := Some((valueAndKey, valueAndKey));
            }
          case Error(error) =>
            return Err(error);
        }
      }
      return KeyedPairOrNull(Ok(result));
    } else {
      return Err(TypeError(KeyFunctionExpected, args));
    }
  }

  function Lows(acc: Option<(Value, Value)>): Option<Value> {
    match acc
    case Some((lo, _)) => Some(lo)
    case None => None
  }

  function Highs(acc: Option<(Value, Value)>): Option<Value> {
    match acc
    case Some((_, hi)) => Some(hi)
    case None => None
  }

  /** `min_max` succeeds exactly when both `min` and `max` do, and then its pair is
      (`min`, `max`); on an empty iterator all three give Null. */
  lemma {:induction false} MinMaxIsMinAndMax(vm: Vm, acc: Option<(Value, Value)>, outs: seq<Output>, i: nat)
    requires i <= |outs|
    ensures var mm, lo, hi := MinMaxFrom(vm, acc, outs, i), ComparisonFrom(vm, No, Lows(acc), outs, i), ComparisonFrom(vm, Yes, Highs(acc), outs, i);
      && (mm.Ok? <==> lo.Ok? && hi.Ok?)
      && (mm.Ok? ==> lo.value == Lows(mm.value) && hi.value == Highs(mm.value))
    decreases |outs| - i
  {
    if i < |outs| && !outs[i].Error? {
      var value := Collected(outs[i]);
      match acc {
        case None =>
          MinMaxIsMinAndMax(vm, Some((value, value)), outs, i + 1);
        case Some((lo, hi)) =>
          var lo', hi' := CompareValues(vm, lo, value, No), CompareValues(vm, hi, value, Yes);
          if lo'.Ok? && hi'.Ok? {
            MinMaxIsMinAndMax(vm, Some((lo'.value, hi'.value)), outs, i + 1);
          }
      }
    }
  }

  // ---------------------------------------------------------------------------------
  // skip, next

  /** The number compares as at least zero. */
  predicate NonNegative(n: ValueNumber) {
    if n.I64? then n.i >= 0 else n.f >= 0.0
  }

  predicate SkipArgs(args: seq<Value>) {
    |args| == 2 && IsIterable(args[0]) && args[1].Number? && NonNegative(args[1].n)
  }

  /** `n` further calls to `next` from position `i`: the outputs left afterwards, or the
      first error met on the way. */
  function SkipFrom(outs: seq<Output>, n: nat, i: nat): Result<seq<Output>>
    requires i <= |outs|
    decreases n
  {
    if n == 0 || i == |outs| then Ok(outs[i..])
    else if outs[i].Error? then Err(outs[i].error)
    else SkipFrom(outs, n - 1, i + 1)
  }

  function IteratorOf(r: Result<seq<Output>>): Result<Value> {
    match r
    case Ok(rest) => Ok(Iterator(rest))
    case Err(e) => Err(e)
  }

  /** `skip`. */
  method Skip(vm: Vm, args: seq<Value>) returns (r: Result<Value>)
    ensures !SkipArgs(args) ==> r == Err(TypeError(SkipExpected, args))
    ensures SkipArgs(args) && vm.makeIterator(args[0]).Err? ==> r == Err(vm.makeIterator(args[0]).error)
    ensures SkipArgs(args) && vm.makeIterator(args[0]).Ok? ==>
      r == IteratorOf(SkipFrom(vm.makeIterator(args[0]).value, UsizeOf(args[1].n), 0))
  {
    if !SkipArgs(args) {
      return Err(TypeError(SkipExpected, args));
    }
    var n := UsizeOf(args[1].n);
    var made := vm.makeIterator(args[0]);
    if made.Err? {
      return Err(made.error);
    }
    var outs := made.value;
    var position := 0;
    for step := 0 to n
      invariant position <= |outs|
      invariant SkipFrom(outs, n, 0) == SkipFrom(outs, n - step, position)
    {
      if position < |outs| {
        var output := outs[position];
        position := position + 1;
        if output.Error? {
          return Err(output.error);
        }
      }
    }
    return Ok(Iterator(outs[position..]));
  }

  /** Skipping `n` succeeds exactly when none of the first `n` outputs is an error, and
      leaves the outputs after them; skipping past the end leaves an exhausted iterator. */
  lemma {:induction false} SkipDiscards(outs: seq<Output>, n: nat, i: nat)
    requires i <= |outs|
    ensures SkipFrom(outs, n, i).Ok? <==> forall k :: i <= k < |outs| && k < i + n ==> !outs[k].Error?
    ensures SkipFrom(outs, n, i).Ok? ==> SkipFrom(outs, n, i).value == outs[if i + n <= |outs| then i + n else |outs|..]
    decreases n
  {
    if n > 0 && i < |outs| {
      SkipDiscards(outs, n - 1, i + 1);
    }
  }

  lemma {:induction false} SkipSuffix(outs: seq<Output>, n: nat, j: nat, i: nat)
    requires j + i <= |outs|
    ensures SkipFrom(outs[j..], n, i) == SkipFrom(outs, n, j + i)
    decreases n
  {
    assert outs[j..][i..] == outs[j + i..];
    if n > 0 && j + i < |outs| {
      SkipSuffix(outs, n - 1, j, i + 1);
    }
  }

  /** Skipping `a` and then `b` is skipping `a + b`. */
  lemma {:induction false} SkipCompose(outs: seq<Output>, a: nat, b: nat, i: nat)
    requires i <= |outs| && SkipFrom(outs, a, i).Ok?
    ensures SkipFrom(SkipFrom(outs, a, i).value, b, 0) == SkipFrom(outs, a + b, i)
    decreases a
  {
    if a == 0 || i == |outs| {
      SkipSuffix(outs, b, i, 0);
      if i == |outs| {
        assert SkipFrom(outs, a + b, i) == Ok(outs[i..]);
      }
    } else {
      SkipCompose(outs, a - 1, b, i + 1);
    }
  }

  /** What reading output `o` gives a script: its value (a pair collected into a tuple)
      or the error it carries. */
  function ReadOutput(o: Output): Result<Value> {
    match CollectPair(o)
    case Value(value) => Ok(value)
    case Error(error) => Err(error)
  }

  /** `next`: the next value, the error it carries, or Null when the iterator is exhausted.
      A cloned iterator shares its cursor with the original, so the call also advances the
      iterator the script holds: the second component is the argument list after the call. */
  function Next(args: seq<Value>): (r: (Result<Value>, seq<Value>))
    ensures !(|args| == 1 && args[0].Iterator?) ==> r == (Err(TypeError(IteratorExpected, args)), args)
    ensures |args| == 1 && args[0].Iterator? ==> |r.1| == 1 && r.1[0].Iterator?
    ensures |args| == 1 && args[0].Iterator? && |args[0].remaining| == 0 ==> r == (Ok(Null), args)
    ensures |args| == 1 && args[0].Iterator? && |args[0].remaining| > 0 ==>
      r.0 == ReadOutput(args[0].remaining[0]) && args[0].remaining == [args[0].remaining[0]] + r.1[0].remaining
  {
    if |args| == 1 && args[0].Iterator? then
      var remaining := args[0].remaining;
      if |remaining| == 0 then (Ok(Null), args)
      else (ReadOutput(remaining[0]), [Iterator(remaining[1..])])
    else (Err(TypeError(IteratorExpected, args)), args)
  }

  /** After skipping `n` outputs, `next` gives output `n` (or Null past the end), and a
      second `next` on the same iterator gives output `n + 1`. */
  lemma NextAfterSkip(outs: seq<Output>, n: nat)
    requires SkipFrom(outs, n, 0).Ok?
    ensures n < |outs| && outs[n].Error? ==> Next([Iterator(SkipFrom(outs, n, 0).value)]).0 == Err(outs[n].error)
    ensures n < |outs| && !outs[n].Error? ==> Next([Iterator(SkipFrom(outs, n, 0).value)]).0 == Ok(Collected(outs[n]))
    ensures n >= |outs| ==> Next([Iterator(SkipFrom(outs, n, 0).value)]).0 == Ok(Null)
    ensures n + 1 < |outs| ==> Next(Next([Iterator(SkipFrom(outs, n, 0).value)]).1).0 == ReadOutput(outs[n + 1])
    ensures n + 1 >= |outs| ==> Next(Next([Iterator(SkipFrom(outs, n, 0).value)]).1).0 == Ok(Null)
  {
    SkipDiscards(outs, n, 0);
    if n < |outs| {
      assert outs[n..][1..] == outs[n + 1..];
    }
  }

  // ---------------------------------------------------------------------------------
  // to_map

  /** How an output becomes an entry: a pair is (key, value), a 2-tuple value likewise,
      and any other value is a key mapped to Null. */
  function KeyValue(o: Output): (Value, Value) {
    match o
    case ValuePair(key, value) => (key, value)
    case Value(v) => if v.Tuple? && |v.items| == 2 then (v.items[0], v.items[1]) else (v, Null)
    case Error(_) => (Null, Null)
  }

  /** The position of the entry whose key is the same as `key`. */
  function FindKey(entries: seq<(Value, Value)>, key: Value, sameKey: (Value, Value) -> bool): (r: Option<nat>)
    ensures r.Some? ==> r.value < |entries| && sameKey(entries[r.value].0, key)
    ensures r.Some? ==> forall j :: 0 <= j < r.value ==> !sameKey(entries[j].0, key)
    ensures r.None? ==> forall j :: 0 <= j < |entries| ==> !sameKey(entries[j].0, key)
  {
    if |entries| == 0 then None
    else if sameKey(entries[0].0, key) then Some(0)
    else match FindKey(entries[1..], key, sameKey)
      case Some(j) => Some(j + 1)
      case None => None
  }

  /** The value stored under `key`. */
  function Lookup(entries: seq<(Value, Value)>, key: Value, sameKey: (Value, Value) -> bool): Option<Value> {
    match FindKey(entries, key, sameKey)
    case Some(j) => Some(entries[j].1)
    case None => None
  }

  /** `DataMap::insert`: an existing entry for the key keeps its place and its key and takes
      the new value; a new key is appended. */
  function Insert(entries: seq<(Value, Value)>, key: Value, value: Value, sameKey: (Value, Value) -> bool): (r: seq<(Value, Value)>)
    ensures |r| == |entries| || |r| == |entries| + 1
    ensures FindKey(entries, key, sameKey).Some? <==> |r| == |entries|
    ensures forall i :: 0 <= i < |entries| ==> r[i].0 == entries[i].0
    ensures |r| > |entries| ==> r[|entries|] == (key, value)
  {
    match FindKey(entries, key, sameKey)
    case Some(j) => entries[j := (entries[j].0, value)]
    case None => entries + [(key, value)]
  }

  /** `sameKey` is how map keys are compared: an equivalence. */
  ghost predicate IsEquivalence(sameKey: (Value, Value) -> bool) {
    (forall a :: sameKey(a, a)) &&
    (forall a, b :: sameKey(a, b) ==> sameKey(b, a)) &&
    (forall a, b, c :: sameKey(a, b) && sameKey(b, c) ==> sameKey(a, c))
  }

  /** After inserting, the key maps to the new value and every other key to what it mapped to before. */
  lemma InsertLookup(entries: seq<(Value, Value)>, key: Value, value: Value, other: Value, sameKey: (Value, Value) -> bool)
    requires IsEquivalence(sameKey)
    ensures sameKey(other, key) ==> Lookup(Insert(entries, key, value, sameKey), other, sameKey) == Some(value)
    ensures !sameKey(other, key) ==> Lookup(Insert(entries, key, value, sameKey), other, sameKey) == Lookup(entries, other, sameKey)
  {
    var r := Insert(entries, key, value, sameKey);
    var found := FindKey(entries, key, sameKey);
    if sameKey(other, key) {
      if found.Some? {
        var j := found.value;
        assert sameKey(r[j].0, other);
        forall i | 0 <= i < j ensures !sameKey(r[i].0, other) {
          assert r[i] == entries[i];
        }
        FindKeyAt(r, other, j, sameKey);
      } else {
        forall i | 0 <= i < |entries| ensures !sameKey(r[i].0, other) {
          assert r[i] == entries[i];
        }
        FindKeyAt(r, other, |entries|, sameKey);
      }
    } else {
      if found.Some? {
        var j := found.value;
        assert sameKey(entries[j].0, other) ==> sameKey(other, key);
        FindKeySame(entries, r, other, sameKey);
      } else {
        assert !sameKey(key, other);
        FindKeyAppend(entries, (key, value), other, sameKey);
      }
    }
  }

  /** The first entry whose key is the same as `key` is found. */
  lemma FindKeyAt(entries: seq<(Value, Value)>, key: Value, j: nat, sameKey: (Value, Value) -> bool)
    requires j < |entries| && sameKey(entries[j].0, key)
    requires forall i :: 0 <= i < j ==> !sameKey(entries[i].0, key)
    ensures FindKey(entries, key, sameKey) == Some(j)
  {
    var r := FindKey(entries, key, sameKey);
    assert r.Some?;
    assert !(r.value < j) && !(r.value > j);
  }

  /** Entries with the same keys at the same positions are searched alike. */
  lemma FindKeySame(entries: seq<(Value, Value)>, other: seq<(Value, Value)>, key: Value, sameKey: (Value, Value) -> bool)
    requires |entries| == |other|
    requires forall i :: 0 <= i < |entries| ==> (sameKey(entries[i].0, key) <==> sameKey(other[i].0, key))
    ensures Lookup(entries, key, sameKey).None? <==> Lookup(other, key, sameKey).None?
    ensures FindKey(entries, key, sameKey) == FindKey(other, key, sameKey)
  {
    var a, b := FindKey(entries, key, sameKey), FindKey(other, key, sameKey);
    if a.Some? {
      FindKeyAt(other, key, a.value, sameKey);
    }
  }

  /** Appending an entry with another key does not change a search. */
  lemma FindKeyAppend(entries: seq<(Value, Value)>, entry: (Value, Value), key: Value, sameKey: (Value, Value) -> bool)
    requires !sameKey(entry.0, key)
    ensures FindKey(entries + [entry], key, sameKey) == FindKey(entries, key, sameKey)
  {
    var r := FindKey(entries, key, sameKey);
    if r.Some? {
      FindKeyAt(entries + [entry], key, r.value, sameKey);
    }
  }

  /** `to_map` from index `i` on, with the entries inserted so far. */
  function ToMapFrom(entries: seq<(Value, Value)>, outs: seq<Output>, i: nat, sameKey: (Value, Value) -> bool): Result<seq<(Value, Value)>>
    requires i <= |outs|
    decreases |outs| - i
  {
    if i == |outs| then Ok(entries)
    else if outs[i].Error? then Err(outs[i].error)
    else
      var (key, value) := KeyValue(outs[i]);
      if !IsImmutable(key) then Err(MutableKey(TypeAsString(key)))
      else ToMapFrom(Insert(entries, key, value, sameKey), outs, i + 1, sameKey)
  }

  /** A map value holding the entries, or the error that stopped building them. */
  function MapOf(r: Result<seq<(Value, Value)>>): Result<Value> {
    match r
    case Ok(entries) => Ok(Map(entries, None))
    case Err(e) => Err(e)
  }

  /** `to_map`; `sameKey` is the runtime's key comparison. */
  method ToMap(vm: Vm, args: seq<Value>, sameKey: (Value, Value) -> bool) returns (r: Result<Value>)
    ensures !OneIterable(args) ==> r == Err(TypeError(IterableExpected, args))
    ensures OneIterable(args) && vm.makeIterator(args[0]).Err? ==> r == Err(vm.makeIterator(args[0]).error)
    ensures OneIterable(args) && vm.makeIterator(args[0]).Ok? ==>
      r == MapOf(ToMapFrom([], vm.makeIterator(args[0]).value, 0, sameKey))
  {
    if !OneIterable(args) {
      return Err(TypeError(IterableExpected, args));
    }
    var made := vm.makeIterator(args[0]);
    if made.Err? {
      return Err(made.error);
    }
    var outs := made.value;
    var result := [];
    for i := 0 to |outs|
      invariant ToMapFrom([], outs, 0, sameKey) == ToMapFrom(result, outs, i, sameKey)
    {
      var key, value;
      match outs[i] {
        case ValuePair(k, v) =>
          key, value := k, v;
        case Value(v) =>
          if v.Tuple? && |v.items| == 2 {
            key, value := v.items[0], v.items[1];
          } else {
            key, value := v, Null;
          }
        case Error(error) =>
          return Err(error);
      }
      if !IsImmutable(key) {
        return Err(MutableKey(TypeAsString(key)));
      }
      result := Insert(result, key, value, sameKey);
    }
    return Ok(Map(result, None));
  }

  /** No two entries share a key. */
  predicate DistinctKeys(entries: seq<(Value, Value)>, sameKey: (Value, Value) -> bool) {
    forall i, j :: 0 <= i < j < |entries| ==> !sameKey(entries[i].0, entries[j].0)
  }

  /** Every key can serve as a map key. */
  predicate ImmutableKeys(entries: seq<(Value, Value)>) {
    forall i :: 0 <= i < |entries| ==> IsImmutable(entries[i].0)
  }

  lemma InsertKeepsKeys(entries: seq<(Value, Value)>, key: Value, value: Value, sameKey: (Value, Value) -> bool)
    requires IsEquivalence(sameKey) && DistinctKeys(entries, sameKey) && ImmutableKeys(entries) && IsImmutable(key)
    ensures DistinctKeys(Insert(entries, key, value, sameKey), sameKey)
    ensures ImmutableKeys(Insert(entries, key, value, sameKey))
  {
    var r := Insert(entries, key, value, sameKey);
    if FindKey(entries, key, sameKey).None? {
      forall i, j | 0 <= i < j < |r| ensures !sameKey(r[i].0, r[j].0) {
        if j == |entries| {
          assert !sameKey(entries[i].0, key);
        }
      }
    }
  }

  /** A map made by `to_map` has distinct, immutable keys. */
  lemma {:induction false} ToMapKeys(entries: seq<(Value, Value)>, outs: seq<Output>, i: nat, sameKey: (Value, Value) -> bool)
    requires i <= |outs| && IsEquivalence(sameKey) && DistinctKeys(entries, sameKey) && ImmutableKeys(entries)
    ensures ToMapFrom(entries, outs, i, sameKey).Ok? ==>
      DistinctKeys(ToMapFrom(entries, outs, i, sameKey).value, sameKey) && ImmutableKeys(ToMapFrom(entries, outs, i, sameKey).value)
    decreases |outs| - i
  {
    if i < |outs| && !outs[i].Error? {
      var (key, value) := KeyValue(outs[i]);
      if IsImmutable(key) {
        InsertKeepsKeys(entries, key, value, sameKey);
        ToMapKeys(Insert(entries, key, value, sameKey), outs, i + 1, sameKey);
      }
    }
  }

  /** `to_map` keeps insertion order: the entries present at index `i` keep their places
      and their keys, and later keys only ever follow them. */
  lemma {:induction false} ToMapKeepsOrder(entries: seq<(Value, Value)>, outs: seq<Output>, i: nat, sameKey: (Value, Value) -> bool)
    requires i <= |outs|
    ensures ToMapFrom(entries, outs, i, sameKey).Ok? ==>
      |entries| <= |ToMapFrom(entries, outs, i, sameKey).value| &&
      forall k :: 0 <= k < |entries| ==> ToMapFrom(entries, outs, i, sameKey).value[k].0 == entries[k].0
    decreases |outs| - i
  {
    if i < |outs| && !outs[i].Error? {
      var (key, value) := KeyValue(outs[i]);
      if IsImmutable(key) {
        ToMapKeepsOrder(Insert(entries, key, value, sameKey), outs, i + 1, sameKey);
      }
    }
  }

  /** Keys that no later output uses keep their values through `to_map`. */
  lemma {:induction false} ToMapKeepsOtherKeys(entries: seq<(Value, Value)>, outs: seq<Output>, i: nat, key: Value, sameKey: (Value, Value) -> bool)
    requires i <= |outs| && IsEquivalence(sameKey)
    requires forall j :: i <= j < |outs| ==> !sameKey(key, KeyValue(outs[j]).0)
    ensures ToMapFrom(entries, outs, i, sameKey).Ok? ==>
      Lookup(ToMapFrom(entries, outs, i, sameKey).value, key, sameKey) == Lookup(entries, key, sameKey)
    decreases |outs| - i
  {
    if i < |outs| && !outs[i].Error? {
      var (k, v) := KeyValue(outs[i]);
      if IsImmutable(k) {
        InsertLookup(entries, k, v, key, sameKey);
        ToMapKeepsOtherKeys(Insert(entries, k, v, sameKey), outs, i + 1, key, sameKey);
      }
    }
  }

  /** In a map made by `to_map`, a key maps to the value of its last occurrence: later
      entries for the same key replace earlier ones. */
  lemma {:induction false} ToMapLastWins(entries: seq<(Value, Value)>, outs: seq<Output>, i: nat, j: nat, sameKey: (Value, Value) -> bool)
    requires i <= j < |outs| && IsEquivalence(sameKey)
    requires forall k :: j < k < |outs| ==> !sameKey(KeyValue(outs[j]).0, KeyValue(outs[k]).0)
    ensures ToMapFrom(entries, outs, i, sameKey).Ok? ==>
      Lookup(ToMapFrom(entries, outs, i, sameKey).value, KeyValue(outs[j]).0, sameKey) == Some(KeyValue(outs[j]).1)
    decreases |outs| - i
  {
    if !outs[i].Error? {
      var (k, v) := KeyValue(outs[i]);
      if IsImmutable(k) {
        var next := Insert(entries, k, v, sameKey);
        if i < j {
          ToMapLastWins(next, outs, i + 1, j, sameKey);
        } else {
          InsertLookup(entries, k, v, k, sameKey);
          ToMapKeepsOtherKeys(next, outs, i + 1, k, sameKey);
        }
      }
    }
  }
}
