/** Dynamically typed setting values, as the YAML settings file and the UI
    widgets hand them around: `None`, booleans, numbers, strings, lists, and
    dictionaries keyed by joint index. */
module Values {
  import opened Wrappers
  import opened PyOps
  import opened Text

  datatype Value =
    | Null
    | Bool(b: bool)
    | Int(i: int)
    | Real(r: real)
    | Str(s: string)
    | List(items: seq<Value>)
    | Dict(entries: map<int, Value>)

  /** Python truthiness: `None`, `False`, zero and empty containers are false. */
  predicate Truthy(v: Value) {
    match v
    case Null => false
    case Bool(b) => b
    case Int(i) => i != 0
    case Real(r) => r != 0.0
    case Str(s) => |s| > 0
    case List(xs) => |xs| > 0
    case Dict(m) => |m| > 0
  }

  /** The value as a number, when Python arithmetic accepts it (`bool` is an `int`). */
  function AsReal(v: Value): (r: Option<real>)
    ensures r.Some? <==> (v.Int? || v.Real? || v.Bool?)
  {
    match v
    case Int(i) => Some(i as real)
    case Real(x) => Some(x)
    case Bool(b) => Some(if b then 1.0 else 0.0)
    case _ => None
  }

  /** Python's `int(v)`: integers as they are, booleans as 0/1, floats
      truncated toward zero, decimal text parsed; unparsable text is a
      `ValueError` and `None` or a container a `TypeError`. */
  function IntOf(v: Value): (r: Result<int, PyError>)
    ensures v.Int? ==> r == Success(v.i)
    ensures v.Real? ==> r == Success(Trunc(v.r))
    ensures v.Bool? ==> r == Success(if v.b then 1 else 0)
    ensures v.Str? ==> (r.Success? <==> ParseInt(v.s).Some?)
    ensures v.Str? && r.Success? ==> r.value == ParseInt(v.s).value
    ensures v.Str? && r.Failure? ==> r.error == ValueError
    ensures (v.Null? || v.List? || v.Dict?) ==> r == Failure(TypeError)
  {
    match v
    case Int(i) => Success(i)
    case Bool(b) => Success(if b then 1 else 0)
    case Real(x) => Success(Trunc(x))
    case Str(s) => if ParseInt(s).Some? then Success(ParseInt(s).value) else Failure(ValueError)
    case _ => Failure(TypeError)
  }

  /** Python's `float(v)` on the same kinds of value. */
  function FloatOf(v: Value): (r: Result<real, PyError>)
    ensures AsReal(v).Some? ==> r == Success(AsReal(v).value)
    ensures v.Str? ==> (r.Success? <==> ParseFloat(v.s).Some?)
    ensures v.Str? && r.Success? ==> r.value == ParseFloat(v.s).value
    ensures (v.Null? || v.List? || v.Dict?) ==> r == Failure(TypeError)
  {
    match v
    case Int(i) => Success(i as real)
    case Bool(b) => Success(if b then 1.0 else 0.0)
    case Real(x) => Success(x)
    case Str(s) => if ParseFloat(s).Some? then Success(ParseFloat(s).value) else Failure(ValueError)
    case _ => Failure(TypeError)
  }

  /** A list whose every item is a number, as a list of reals. */
  function AsRealList(v: Value): (r: Option<seq<real>>)
    ensures r.Some? ==> v.List? && |r.value| == |v.items|
    ensures r.Some? ==> forall i :: 0 <= i < |r.value| ==> AsReal(v.items[i]) == Some(r.value[i])
  {
    if v.List? && forall i :: 0 <= i < |v.items| ==> AsReal(v.items[i]).Some? then
      Some(seq(|v.items|, i requires 0 <= i < |v.items| => AsReal(v.items[i]).value))
    else None
  }

  /** `d.get(k, default)` on a value that must be a dictionary; anything else
      has no `.get` and raises `AttributeError`. */
  function DictGet(d: Value, k: int, default: Value): (r: Result<Value, PyError>)
    ensures !d.Dict? ==> r == Failure(AttributeError)
    ensures d.Dict? && k in d.entries ==> r == Success(d.entries[k])
    ensures d.Dict? && k !in d.entries ==> r == Success(default)
  {
    if !d.Dict? then Failure(AttributeError)
    else if k in d.entries then Success(d.entries[k])
    else Success(default)
  }

  /** `{i: v for i in range(6)}`: one entry per joint index. */
  function JointDict(v: Value): (r: Value)
    ensures r.Dict? && r.entries.Keys == {0, 1, 2, 3, 4, 5}
    ensures forall i :: i in r.entries ==> r.entries[i] == v
  {
    Dict(map[0 := v, 1 := v, 2 := v, 3 := v, 4 := v, 5 := v])
  }
}
