/** The `num4` core library module: building a Num4 from numbers or from an iterator,
    replacing one lane, and reading lanes by name. Lanes are exact reals here. */
module Num4Core {
  import opened Wrappers
  import opened Values
  import opened Iterators

  const Num4Expected := "a Num4 as argument"
  const MakeNum4Expected := "Numbers or an iterable as arguments"
  const NumberExpected := "a Number"

  /** A number as a lane value. */
  function LaneOf(n: ValueNumber): real {
    match n
    case I64(i) => i as real
    case F64(f) => f
  }

  /** Lane `i` of a Num4: 0 is x (r), 1 is y (g), 2 is z (b), 3 is w (a). */
  function GetLane(v: Vec4, i: nat): real
    requires i < 4
  {
    if i == 0 then v.x else if i == 1 then v.y else if i == 2 then v.z else v.w
  }

  /** `num4_error`. */
  function Num4Error(args: seq<Value>): (r: Result<Value>)
    ensures r.Err? && r.error.TypeError? && r.error.unexpected == args
  {
    Err(TypeError(Num4Expected, args))
  }

  /** The lanes `num4_from_iterator` fills from the outputs from index `i` on: at most
      the first four, in order; the first non-Number or error output fails. */
  function FromIteratorFrom(acc: Vec4, outs: seq<Output>, i: nat): Result<Vec4>
    requires i <= 4
    decreases 4 - i
  {
    if i == 4 || i >= |outs| then Ok(acc)
    else
      match CollectPair(outs[i])
      case Value(Number(n)) => FromIteratorFrom(SetLane(acc, i, LaneOf(n)), outs, i + 1)
      case Value(unexpected) => Err(TypeError(NumberExpected, [unexpected]))
      case Error(e) => Err(e)
  }

  /** `v` with lane `i` replaced. */
  function SetLane(v: Vec4, i: nat, value: real): (r: Vec4)
    requires i < 4
    ensures GetLane(r, i) == value
    ensures forall j :: 0 <= j < 4 && j != i ==> GetLane(r, j) == GetLane(v, j)
  {
    if i == 0 then v.(x := value) else if i == 1 then v.(y := value) else if i == 2 then v.(z := value) else v.(w := value)
  }

  const Zero := Vec4(0.0, 0.0, 0.0, 0.0)

  /** `num4_from_iterator`. */
  method Num4FromIterator(outs: seq<Output>) returns (r: Result<Vec4>)
    ensures r == FromIteratorFrom(Zero, outs, 0)
  {
    var result := Zero;
    var count := if |outs| < 4 then |outs| else 4;
    for i := 0 to count
      invariant FromIteratorFrom(Zero, outs, 0) == FromIteratorFrom(result, outs, i)
    {
      match CollectPair(outs[i]) {
        case Value(Number(n)) =>
          result := SetLane(result, i, LaneOf(n));
        case Value(unexpected) =>
          return Err(TypeError(NumberExpected, [unexpected]));
        case Error(e) =>
          return Err(e);
      }
    }
    return Ok(result);
  }

  /** Outputs after the fourth are never read. */
  lemma {:induction false} FromIteratorReadsFour(acc: Vec4, outs: seq<Output>, rest: seq<Output>, i: nat)
    requires i <= 4 <= |outs|
    ensures FromIteratorFrom(acc, outs + rest, i) == FromIteratorFrom(acc, outs, i)
    decreases 4 - i
  {
    if i < 4 {
      assert (outs + rest)[i] == outs[i];
      match CollectPair(outs[i]) {
        case Value(Number(n)) => FromIteratorReadsFour(SetLane(acc, i, LaneOf(n)), outs, rest, i + 1);
        case Value(_) =>
        case Error(_) =>
      }
    }
  }

  /** Every output read is a number. */
  predicate NumbersUpToFour(outs: seq<Output>) {
    forall k :: 0 <= k < |outs| && k < 4 ==> outs[k].Value? && outs[k].value.Number?
  }

  /** When the first (up to four) outputs are numbers, lane `k` holds output `k`, and the
      lanes with no output keep their default of zero. */
  lemma {:induction false} FromIteratorLanes(acc: Vec4, outs: seq<Output>, i: nat)
    requires i <= 4 && NumbersUpToFour(outs)
    requires forall k :: i <= k < 4 ==> GetLane(acc, k) == 0.0
    ensures FromIteratorFrom(acc, outs, i).Ok?
    ensures forall k :: 0 <= k < i ==> GetLane(FromIteratorFrom(acc, outs, i).value, k) == GetLane(acc, k)
    ensures forall k :: i <= k < 4 ==>
      GetLane(FromIteratorFrom(acc, outs, i).value, k) == if k < |outs| then LaneOf(outs[k].value.n) else 0.0
    decreases 4 - i
  {
    if i < 4 && i < |outs| {
      FromIteratorLanes(SetLane(acc, i, LaneOf(outs[i].value.n)), outs, i + 1);
    }
  }

  /** The first non-Number among the first four outputs is a type error naming it, when no
      error output comes before it. */
  lemma {:induction false} FromIteratorRejects(acc: Vec4, outs: seq<Output>, i: nat, k: nat)
    requires i <= k < 4 && k < |outs|
    requires forall j :: i <= j < k ==> outs[j].Value? && outs[j].value.Number?
    requires outs[k].Value? && !outs[k].value.Number?
    ensures FromIteratorFrom(acc, outs, i) == Err(TypeError(NumberExpected, [outs[k].value]))
    decreases k - i
  {
    if i < k {
      FromIteratorRejects(SetLane(acc, i, LaneOf(outs[i].value.n)), outs, i + 1, k);
    }
  }

  predicate AllNumbers(args: seq<Value>) {
    forall k :: 0 <= k < |args| ==> args[k].Number?
  }

  /** Lane `k` as given by numeric arguments, zero where none is given. */
  function PaddedLane(args: seq<Value>, k: nat): real
    requires AllNumbers(args)
  {
    if k < |args| then LaneOf(args[k].n) else 0.0
  }

  /** A Num4 value with the lanes read, or the error that stopped reading them. */
  function Num4Of(r: Result<Vec4>): Result<Value> {
    match r
    case Ok(v) => Ok(Num4(v))
    case Err(e) => Err(e)
  }

  /** `make_num4`. */
  method MakeNum4(vm: Vm, args: seq<Value>) returns (r: Result<Value>)
    ensures |args| == 1 && args[0].Number? ==>
      var lane := LaneOf(args[0].n); r == Ok(Num4(Vec4(lane, lane, lane, lane)))
    ensures 2 <= |args| <= 4 && AllNumbers(args) ==>
      r == Ok(Num4(Vec4(PaddedLane(args, 0), PaddedLane(args, 1), PaddedLane(args, 2), PaddedLane(args, 3))))
    ensures |args| == 1 && args[0].Num2? ==> r == Ok(Num4(Vec4(args[0].n2.x, args[0].n2.y, 0.0, 0.0)))
    ensures |args| == 1 && args[0].Num4? ==> r == Ok(args[0])
    ensures |args| == 1 && IsIterable(args[0]) && !args[0].Num2? && !args[0].Num4? && vm.makeIterator(args[0]).Err? ==>
      r == Err(vm.makeIterator(args[0]).error)
    ensures |args| == 1 && IsIterable(args[0]) && !args[0].Num2? && !args[0].Num4? && vm.makeIterator(args[0]).Ok? ==>
      r == Num4Of(FromIteratorFrom(Zero, vm.makeIterator(args[0]).value, 0))
    ensures !(1 <= |args| <= 4 && AllNumbers(args)) && !(|args| == 1 && (args[0].Num2? || args[0].Num4? || IsIterable(args[0]))) ==>
      r == Err(TypeError(MakeNum4Expected, args))
  {
    if 1 <= |args| <= 4 && AllNumbers(args) {
      if |args| == 1 {
        var n := LaneOf(args[0].n);
        return Ok(Num4(Vec4(n, n, n, n)));
      } else if |args| == 2 {
        return Ok(Num4(Vec4(LaneOf(args[0].n), LaneOf(args[1].n), 0.0, 0.0)));
      } else if |args| == 3 {
        return Ok(Num4(Vec4(LaneOf(args[0].n), LaneOf(args[1].n), LaneOf(args[2].n), 0.0)));
      } else {
        return Ok(Num4(Vec4(LaneOf(args[0].n), LaneOf(args[1].n), LaneOf(args[2].n), LaneOf(args[3].n))));
      }
    } else if |args| == 1 && args[0].Num2? {
      return Ok(Num4(Vec4(args[0].n2.x, args[0].n2.y, 0.0, 0.0)));
    } else if |args| == 1 && args[0].Num4? {
      return Ok(args[0]);
    } else if |args| == 1 && IsIterable(args[0]) {
      var made := vm.makeIterator(args[0]);
      if made.Err? {
        return Err(made.error);
      }
      var lanes := Num4FromIterator(made.value);
      match lanes {
        case Ok(v) => return Ok(Num4(v));
        case Err(e) => return Err(e);
      }
    } else {
      return Err(TypeError(MakeNum4Expected, args));
    }
  }

  /** `with`: a copy of the Num4 with one lane replaced. */
  method With(args: seq<Value>) returns (r: Result<Value>)
    ensures !(|args| == 3 && args[0].Num4? && args[1].Number? && args[2].Number?) ==> r == Num4Error(args)
    ensures |args| == 3 && args[0].Num4? && args[1].Number? && args[2].Number? ==>
      var index := UsizeOf(args[1].n);
      && (index >= 4 <==> r == Err(InvalidNum4Index(index)))
      && (index < 4 ==> r.Ok? && r.value.Num4?)
      && (index < 4 && r.Ok? ==> GetLane(r.value.n4, index) == LaneOf(args[2].n))
      && (index < 4 && r.Ok? ==> forall k :: 0 <= k < 4 && k != index ==> GetLane(r.value.n4, k) == GetLane(args[0].n4, k))
  {
    if !(|args| == 3 && args[0].Num4? && args[1].Number? && args[2].Number?) {
      return Num4Error(args);
    }
    var result := args[0].n4;
    var value := LaneOf(args[2].n);
    var index := UsizeOf(args[1].n);
    if index == 0 {
      result := result.(x := value);
    } else if index == 1 {
      result := result.(y := value);
    } else if index == 2 {
      result := result.(z := value);
    } else if index == 3 {
      result := result.(w := value);
    } else {
      return Err(InvalidNum4Index(index));
    }
    return Ok(Num4(result));
  }

  /** Reading lane `k` of a single Num4 argument, as a float Number. */
  function LaneAccess(args: seq<Value>, k: nat): (r: Result<Value>)
    requires k < 4
    ensures r.Ok? <==> |args| == 1 && args[0].Num4?
    ensures r.Ok? ==> r.value == Number(F64(GetLane(args[0].n4, k)))
    ensures r.Err? ==> r == Num4Error(args)
  {
    if |args| == 1 && args[0].Num4? then Ok(Number(F64(GetLane(args[0].n4, k)))) else Num4Error(args)
  }

  function X(args: seq<Value>): Result<Value> { LaneAccess(args, 0) }
  function Y(args: seq<Value>): Result<Value> { LaneAccess(args, 1) }
  function Z(args: seq<Value>): Result<Value> { LaneAccess(args, 2) }
  function W(args: seq<Value>): Result<Value> { LaneAccess(args, 3) }
  function R(args: seq<Value>): Result<Value> { LaneAccess(args, 0) }
  function G(args: seq<Value>): Result<Value> { LaneAccess(args, 1) }
  function B(args: seq<Value>): Result<Value> { LaneAccess(args, 2) }
  function A(args: seq<Value>): Result<Value> { LaneAccess(args, 3) }

  /** The colour names read the same lanes as the coordinate names, lanes 0 to 3 in
      order, and each reads back what `make_num4` put there from four numbers. */
  lemma AccessorsReadLanes(args: seq<Value>)
    ensures X(args) == R(args) && Y(args) == G(args) && Z(args) == B(args) && W(args) == A(args)
    ensures |args| == 4 && AllNumbers(args) ==>
      var v := Vec4(PaddedLane(args, 0), PaddedLane(args, 1), PaddedLane(args, 2), PaddedLane(args, 3));
      && X([Num4(v)]) == Ok(Number(F64(LaneOf(args[0].n))))
      && Y([Num4(v)]) == Ok(Number(F64(LaneOf(args[1].n))))
      && Z([Num4(v)]) == Ok(Number(F64(LaneOf(args[2].n))))
      && W([Num4(v)]) == Ok(Number(F64(LaneOf(args[3].n))))
  {
  }
}
