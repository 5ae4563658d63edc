/** The few Python and NumPy built-ins the robot code leans on, stated over
    exact integers and reals: `int()` on a float, `math.ceil`, `min`/`max`
    clamping, `np.clip`, list indexing with negative indices, and the
    exception kinds the code raises or catches. */
module PyOps {
  import opened Wrappers

  /** The Python exception kinds that show up in the modelled code paths. */
  datatype PyError =
    | ValueError
    | TypeError
    | IndexError
    | KeyError
    | AttributeError
    | OverflowError
    | ZeroDivisionError
    | FileNotFoundError
    | JSONDecodeError
      /** whatever the servo driver or the CAN bus raises; the driver is outside the model */
    | DeviceError

  /** `math.pi`, read as the exact decimal value of the IEEE double. */
  const Pi: real := 3.141592653589793

  /** `math.radians` / `np.deg2rad`. */
  function Radians(deg: real): real {
    deg * Pi / 180.0
  }

  /** Python's `int(x)` on a float: truncation toward zero. */
  function Trunc(x: real): (n: int)
    ensures 0.0 <= x ==> 0 <= n && n as real <= x < n as real + 1.0
    ensures x < 0.0 ==> n <= 0 && n as real - 1.0 < x <= n as real
  {
    if x >= 0.0 then x.Floor else -((-x).Floor)
  }

  /** Truncation never moves a value further from zero and loses less than one unit. */
  lemma TruncBounds(x: real)
    ensures -1.0 < x - Trunc(x) as real < 1.0
    ensures Abs(Trunc(x) as real) <= Abs(x)
  {
  }

  /** Truncation leaves integers unchanged. */
  lemma TruncOfInt(n: int)
    ensures Trunc(n as real) == n
  {
  }

  /** A quotient of a number by a larger positive one lies in `[0, 1]`, and is 1 when the two are equal. */
  lemma DivUnit(a: real, b: real)
    requires 0.0 <= a <= b && 0.0 < b
    ensures 0.0 <= a / b <= 1.0
    ensures a == b ==> a / b == 1.0
  {
  }

  /** `math.ceil` / `np.ceil` followed by `int()`. */
  function Ceil(x: real): (n: int)
    ensures n as real - 1.0 < x <= n as real
  {
    -((-x).Floor)
  }

  function Abs(x: real): real {
    if x < 0.0 then -x else x
  }

  function AbsInt(x: int): int {
    if x < 0 then -x else x
  }

  /** `max(lo, min(x, hi))` on integers. */
  function ClampInt(x: int, lo: int, hi: int): (r: int)
    requires lo <= hi
    ensures lo <= r <= hi
    ensures lo <= x <= hi ==> r == x
    ensures x < lo ==> r == lo
    ensures hi < x ==> r == hi
  {
    if x < lo then lo else if x > hi then hi else x
  }

  /** `np.clip(x, lo, hi)` on a real. */
  function ClipReal(x: real, lo: real, hi: real): (r: real)
    requires lo <= hi
    ensures lo <= r <= hi
    ensures lo <= x <= hi ==> r == x
  {
    if x < lo then lo else if x > hi then hi else x
  }

  /** Python list indexing `s[i]`: negative indices count from the end, and
      anything else outside the list is an `IndexError` (here `None`). */
  function Index<T>(s: seq<T>, i: int): (r: Option<T>)
    ensures 0 <= i < |s| ==> r == Some(s[i])
    ensures -|s| <= i < 0 ==> r == Some(s[|s| + i])
    ensures r.None? <==> (i < -|s| || |s| <= i)
  {
    if 0 <= i < |s| then Some(s[i])
    else if -|s| <= i < 0 then Some(s[|s| + i])
    else None
  }

  /** The position Python's `s[i]` refers to in a list of length `n`:
      negative indices count from the end; `None` when out of range. */
  function Slot(n: nat, i: int): (j: Option<int>)
    ensures j.Some? ==> 0 <= j.value < n
    ensures 0 <= i < n ==> j == Some(i)
    ensures -(n as int) <= i < 0 ==> j == Some(n + i)
    ensures j.None? <==> (i < -(n as int) || n <= i)
  {
    if 0 <= i < n then Some(i)
    else if -(n as int) <= i < 0 then Some(n + i)
    else None
  }

  /** Python item assignment `s[i] = v` on a list: the one slot `s[i]`
      refers to takes `v`; out of range is an `IndexError` (`None`). */
  function Assign<T>(s: seq<T>, i: int, v: T): (r: Option<seq<T>>)
    ensures r.Some? <==> Index(s, i).Some?
    ensures r.Some? ==> |r.value| == |s| && Index(r.value, i) == Some(v)
    ensures r.Some? ==> forall j :: 0 <= j < |s| && Some(j) != Slot(|s|, i) ==> r.value[j] == s[j]
  {
    match Slot(|s|, i)
    case None => None
    case Some(j) => Some(s[j := v])
  }

  /** `[0.0] * n`. */
  function Zeros(n: nat): (r: seq<real>)
    ensures |r| == n
    ensures forall i :: 0 <= i < n ==> r[i] == 0.0
  {
    seq(n, _ => 0.0)
  }

  /** `s[:n]` for a non-negative `n`: the whole list when it is shorter. */
  function Prefix<T>(s: seq<T>, n: nat): (r: seq<T>)
    ensures |r| == if |s| < n then |s| else n
    ensures forall i :: 0 <= i < |r| ==> r[i] == s[i]
  {
    if |s| < n then s else s[..n]
  }
}
