/**
  The precision and index helpers of the DSL typing module: choosing the model's
  float type from the precision setting, the length check that turns a tuple
  into a 3D index, and the test for floating-point types.

  Data types are an enumeration. The environment variable PACE_FLOAT_PRECISION is
  an optional integer input (None when unset); parsing the string is not modelled.
*/
module Typing {
  import opened Wrappers

  /** The Python and numpy scalar types the helpers distinguish. */
  datatype DType = PyBool | NpBool | PyInt | Int32 | Int64 | PyFloat | Float16 | Float32 | Float64

  /** Membership in the `DTypes` union: every type above except float16. */
  predicate InDTypes(d: DType) {
    d != Float16
  }

  /** The floating-point kinds: Python float and numpy float16, float32, float64. */
  predicate IsFloatKind(d: DType) {
    d == PyFloat || d == Float16 || d == Float32 || d == Float64
  }

  /** The exceptions the helpers raise. */
  datatype TypingError = ValueError | NotImplementedError(bits: int)

  /** `floating_point_precision`: the setting, 64 when unset. */
  function FloatingPointPrecision(env: Option<int>): (bits: int)
    ensures env.None? ==> bits == 64
    ensures env.Some? ==> bits == env.value
  {
    if env.Some? then env.value else 64
  }

  /**
    `global_set_floating_point_precision` as written: float64 for 64 bits, float32
    for 32 bits, and None (Python's implicit return) for anything else, because the
    NotImplementedError is built but not raised.
  */
  function GlobalSetFloatingPointPrecision(env: Option<int>): (float: Option<DType>)
    ensures float == Some(Float64) <==> FloatingPointPrecision(env) == 64
    ensures float == Some(Float32) <==> FloatingPointPrecision(env) == 32
    ensures float.None? <==> FloatingPointPrecision(env) != 32 && FloatingPointPrecision(env) != 64
  {
    var bits := FloatingPointPrecision(env);
    if bits == 64 then Some(Float64)
    else if bits == 32 then Some(Float32)
    else None
  }

  /** The same selection with the NotImplementedError raised, as its construction shows was meant. */
  function CheckedFloatingPointPrecision(env: Option<int>): (r: Result<DType, TypingError>)
    ensures r.Ok? <==> FloatingPointPrecision(env) == 32 || FloatingPointPrecision(env) == 64
    ensures r.Ok? ==> Some(r.value) == GlobalSetFloatingPointPrecision(env) && IsFloatKind(r.value)
    ensures r.Err? ==> r.error == NotImplementedError(FloatingPointPrecision(env))
  {
    var bits := FloatingPointPrecision(env);
    if bits == 64 then Ok(Float64)
    else if bits == 32 then Ok(Float32)
    else Err(NotImplementedError(bits))
  }

  /** `Index3D`: a tuple of exactly three integers. */
  type Index3D = s: seq<int> | |s| == 3 witness [0, 0, 0]

  /** `cast_to_index3d`: the tuple unchanged when it has length 3, ValueError otherwise. */
  function CastToIndex3D(val: seq<int>): (r: Result<Index3D, TypingError>)
    ensures r.Ok? <==> |val| == 3
    ensures r.Ok? ==> r.value == val
    ensures r.Err? ==> r.error == ValueError
  {
    if |val| != 3 then Err(ValueError) else var index: Index3D := val; Ok(index)
  }

  /** The list `is_float` searches: the configured Float, then float, float16, float32, float64. */
  function FloatTypes(float: Option<DType>): seq<Option<DType>> {
    [float, Some(PyFloat), Some(Float16), Some(Float32), Some(Float64)]
  }

  /**
    `is_float(dtype)` with `Float` bound to `float`; None stands for Python's None
    on either side. For a real type the answer is exactly "a floating-point kind"
    as long as the configured Float is None or itself a float kind.
  */
  function IsFloat(float: Option<DType>, dtype: Option<DType>): (r: bool)
    ensures dtype.Some? && (float.None? || IsFloatKind(float.value)) ==> (r <==> IsFloatKind(dtype.value))
    ensures dtype.None? ==> (r <==> float.None?)
  {
    dtype in FloatTypes(float)
  }

  /** Whatever the precision setting, `is_float` accepts exactly the float kinds, so no int or bool type of `DTypes`. */
  lemma IsFloatExactly(env: Option<int>, d: DType)
    ensures IsFloat(GlobalSetFloatingPointPrecision(env), Some(d)) <==> IsFloatKind(d)
    ensures InDTypes(d) && !(d == PyFloat || d == Float32 || d == Float64) ==> !IsFloat(GlobalSetFloatingPointPrecision(env), Some(d))
  {
    var float := GlobalSetFloatingPointPrecision(env);
    assert float.None? || IsFloatKind(float.value);
  }

  /** As written, an unsupported precision leaves Float as None, and then `is_float(None)` is true. */
  lemma NoneIsFloatUnderUnsupportedPrecision(env: Option<int>)
    ensures IsFloat(GlobalSetFloatingPointPrecision(env), None)
            <==> FloatingPointPrecision(env) != 32 && FloatingPointPrecision(env) != 64
  {
  }

  /** PACE_FLOAT_PRECISION=16: no error, Float is None, and None passes as a float type. */
  lemma Precision16Example()
    ensures GlobalSetFloatingPointPrecision(Some(16)) == None
    ensures IsFloat(GlobalSetFloatingPointPrecision(Some(16)), None)
    ensures CheckedFloatingPointPrecision(Some(16)) == Err(NotImplementedError(16))
  {
  }

  /** With the error raised, the configured Float is always a float kind and None is never accepted. */
  lemma CheckedPrecisionRejectsNone(env: Option<int>)
    requires CheckedFloatingPointPrecision(env).Ok?
    ensures IsFloatKind(CheckedFloatingPointPrecision(env).value)
    ensures !IsFloat(Some(CheckedFloatingPointPrecision(env).value), None)
  {
  }
}
