/**
 * What the Android statistics classes build on: Android's `SharedPreferences`
 * key-value store, shared by every object that opens it, and the Java
 * arithmetic they do on its values (32-bit `int` addition and `long`
 * division).
 */
module AndroidPrefs {

  const IntMin: int := -0x8000_0000
  const IntMax: int := 0x7fff_ffff

  /** A value in the range of a Java `int`. */
  predicate IsInt(x: int)
  {
    IntMin <= x <= IntMax
  }

  /** Java `int` arithmetic: the exact result wrapped into the 32-bit range. */
  function WrapInt(x: int): (r: int)
    ensures IsInt(r)
    ensures (r - x) % 0x1_0000_0000 == 0
  {
    (x - IntMin) % 0x1_0000_0000 + IntMin
  }

  /** Wrapping changes nothing in range, and one past `IntMax` is `IntMin`. */
  lemma WrapIntRange(x: int)
    ensures IsInt(x) ==> WrapInt(x) == x
    ensures WrapInt(IntMax + 1) == IntMin
  {
  }

  /** Java `a / b` on `long`: the quotient truncated toward zero. */
  function JavaDiv(a: int, b: int): (q: int)
    requires b > 0
    ensures a >= 0 ==> 0 <= q && q * b <= a < q * b + b
    ensures a < 0 ==> q <= 0 && q * b - b < a <= q * b
  {
    if a >= 0 then a / b else -((-a) / b)
  }

  /**
   * A stored value, by the type it was written with. A `double` stored
   * as its `long` bits is kept as the number itself.
   */
  datatype Pref =
    | IntPref(i: int)
    | LongPref(l: int)
    | FloatPref(f: real)
    | DoubleBitsPref(d: real)

  /**
   * One named preferences file. Every object opened on the same context
   * and name gets this same object, so what one writes the others read.
   * `apply()` is taken to take effect at once.
   */
  class Preferences {
    var data: map<string, Pref>

    constructor()
      ensures data == map[]
    {
      data := map[];
    }
  }

  /** `getInt(key, default)`: the stored value, or `default` when the key is absent. */
  function GetInt(data: map<string, Pref>, key: string, default: int): (r: int)
    requires key in data ==> data[key].IntPref?
    ensures key in data ==> r == data[key].i
    ensures key !in data ==> r == default
  {
    if key in data then data[key].i else default
  }

  /** `getLong(key, default)`. */
  function GetLong(data: map<string, Pref>, key: string, default: int): (r: int)
    requires key in data ==> data[key].LongPref?
    ensures key in data ==> r == data[key].l
    ensures key !in data ==> r == default
  {
    if key in data then data[key].l else default
  }
}
