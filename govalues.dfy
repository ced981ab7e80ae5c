/** The Go values the clients pass around: floats, times, and the
    `interface{}` values of a parameter map together with the text `%v`
    prints for them. */
module GoValues {
  import opened Results
  import Decimal

  /** A float64, known only by the text `%v` prints for it; no arithmetic is
      done on prices and amounts, so none is modelled. */
  datatype Float64 = Float64(text: string)

  /** What `strconv.ParseFloat(s, 64)` returns: a value and an error. */
  datatype ParseResult = ParseResult(value: Float64, err: Option<string>)

  /** A `time.Time`, as nanoseconds since the Unix epoch. */
  datatype Instant = Instant(unixNanos: int)

  const NanosPerSecond: int := 1_000_000_000

  /** `t.Before(u)`. */
  predicate Before(t: Instant, u: Instant) {
    t.unixNanos < u.unixNanos
  }

  /** `t.Unix()`: whole seconds, rounded down (also before 1970). */
  function Unix(t: Instant): (r: int)
    ensures r * NanosPerSecond <= t.unixNanos < (r + 1) * NanosPerSecond
  {
    t.unixNanos / NanosPerSecond
  }

  /** `time.Unix(sec, 0)`. */
  function FromUnix(sec: int): (t: Instant)
    ensures Unix(t) == sec
  {
    Instant(sec * NanosPerSecond)
  }

  /** Later instants have no smaller Unix second. */
  lemma UnixMonotone(t: Instant, u: Instant)
    requires !Before(u, t)
    ensures Unix(t) <= Unix(u)
  {
  }

  /** A value of a `map[string]interface{}` parameter map. */
  datatype Value = Str(s: string) | Int(i: int) | Float(f: Float64)

  /** `fmt.Sprintf("%v", v)`. */
  function Format(v: Value): string {
    match v
    case Str(s) => s
    case Int(i) => Decimal.Decimal(i)
    case Float(f) => f.text
  }
}
