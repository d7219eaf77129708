/**
 * The untyped values a Flutter method call carries across the platform
 * channel, and the typed reads the plugin makes of them.
 *
 * `MethodCall.argument(key)` (Flutter's own class) answers null for every key
 * when the call has no arguments, looks the key up when the arguments are a
 * map (a missing key reads as null), and throws `ClassCastException` for any
 * other argument value. A typed read such as `argument<Boolean>(key)` also
 * throws `ClassCastException` when the stored value has another type, because
 * Kotlin casts the erased result at the call site.
 */
module MethodCalls {
  import opened Wrappers

  /** A value as decoded by the channel's message codec. */
  datatype Arg =
    | Null
    | Bool(b: bool)
    | Int(i: int)
    | Real(r: real)
    | Str(s: string)
    | Map(entries: map<string, Arg>)

  /** An exception thrown while reading the arguments of a call. */
  datatype ParseError =
    | IllegalArgument(message: string)
    | ClassCast(key: string)

  /** True when `argument(key)` can be asked of these call arguments without throwing. */
  predicate IsArgumentMap(arguments: Arg) {
    arguments.Null? || arguments.Map?
  }

  /** The value stored under `key`; null when absent or when there are no arguments. */
  function Lookup(arguments: Arg, key: string): (a: Arg)
    ensures arguments.Map? && key in arguments.entries ==> a == arguments.entries[key]
    ensures !(arguments.Map? && key in arguments.entries) ==> a == Null
  {
    match arguments
    case Map(entries) => if key in entries then entries[key] else Null
    case _ => Null
  }

  /** `MethodCall.argument<Any?>(key)`: no cast at the call site. */
  function Argument(arguments: Arg, key: string): (r: Result<Arg, ParseError>)
    ensures r.Success? <==> IsArgumentMap(arguments)
    ensures r.Success? ==> r.value == Lookup(arguments, key)
    ensures r.Failure? ==> r.error == ClassCast(key)
  {
    match arguments
    case Null => Success(Null)
    case Map(entries) => Success(if key in entries then entries[key] else Null)
    case _ => Failure(ClassCast(key))
  }

  /** `argument<Boolean>(key) ?: default`. */
  function BoolArgument(arguments: Arg, key: string, default: bool): (r: Result<bool, ParseError>)
    ensures r.Success? <==> IsArgumentMap(arguments) && Lookup(arguments, key) in {Null, Bool(false), Bool(true)}
    ensures r.Success? ==> r.value == (if Lookup(arguments, key).Bool? then Lookup(arguments, key).b else default)
    ensures r.Failure? ==> r.error == ClassCast(key)
  {
    var a :- Argument(arguments, key);
    match a
    case Null => Success(default)
    case Bool(b) => Success(b)
    case _ => Failure(ClassCast(key))
  }

  /** A value Kotlin sees as a `Number`. */
  predicate IsNumber(a: Arg) {
    a.Int? || a.Real?
  }

  const IntMin: int := -0x8000_0000
  const IntMax: int := 0x7fff_ffff

  /** `Long.toInt()` (and `Integer`, `BigInteger`): keeps the low 32 bits, two's complement. */
  function WrapToInt32(i: int): (r: int)
    ensures IntMin <= r <= IntMax
    ensures (r - i) % 0x1_0000_0000 == 0
    ensures IntMin <= i <= IntMax ==> r == i
  {
    var low := i % 0x1_0000_0000;
    if low > IntMax then low - 0x1_0000_0000 else low
  }

  /** Rounds toward zero, as the JVM does when converting a floating-point value. */
  function TruncateTowardZero(x: real): (r: int)
    ensures x >= 0.0 ==> r as real <= x < r as real + 1.0
    ensures x < 0.0 ==> r as real - 1.0 < x <= r as real
  {
    if x >= 0.0 then x.Floor else -((-x).Floor)
  }

  /** `Double.toInt()`: truncates toward zero and saturates at the 32-bit bounds. */
  function SaturateToInt32(x: real): (r: int)
    ensures IntMin <= r <= IntMax
    ensures IntMin as real <= x <= IntMax as real ==> r == TruncateTowardZero(x)
    ensures x >= IntMax as real ==> r == IntMax
    ensures x <= IntMin as real ==> r == IntMin
  {
    if x >= IntMax as real then IntMax
    else if x <= IntMin as real then IntMin
    else TruncateTowardZero(x)
  }

  /** `(a as? Number)?.toInt()`. */
  function NumberToInt(a: Arg): (r: Option<int>)
    ensures r.Some? <==> IsNumber(a)
    ensures r.Some? ==> IntMin <= r.value <= IntMax
    ensures a.Int? && IntMin <= a.i <= IntMax ==> r == Some(a.i)
    ensures a.Int? ==> (r.value - a.i) % 0x1_0000_0000 == 0
    ensures a.Real? && IntMin as real <= a.r <= IntMax as real ==> r == Some(TruncateTowardZero(a.r))
    ensures a.Real? && a.r >= IntMax as real ==> r == Some(IntMax)
    ensures a.Real? && a.r <= IntMin as real ==> r == Some(IntMin)
  {
    match a
    case Int(i) => Some(WrapToInt32(i))
    case Real(x) => Some(SaturateToInt32(x))
    case _ => None
  }

  /** `(a as Number).toDouble()`; the rounding of very large integers is not modelled. */
  function NumberToDouble(a: Arg): (r: Option<real>)
    ensures r.Some? <==> IsNumber(a)
    ensures a.Real? ==> r == Some(a.r)
    ensures a.Int? ==> r == Some(a.i as real)
  {
    match a
    case Int(i) => Some(i as real)
    case Real(x) => Some(x)
    case _ => None
  }
}
