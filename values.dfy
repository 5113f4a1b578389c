/**
 * Dynamic values as they flow between the database, the request and the
 * templates (Go's `interface{}` in `map[string]interface{}` rows), the
 * request's query/form parameters, and the library operations the model
 * leaves uninterpreted (floating point and time).
 */
module Values {
  import opened Wrappers
  import opened GoInt
  import opened Strconv

  /** A `float64`, kept as its IEEE-754 bit pattern; no float arithmetic is modelled. */
  datatype Float64 = Float64(bits: bv64)

  /** A `time.Time`, kept opaque. */
  datatype Instant = Instant(repr: int)

  /** The dynamic types a row cell or a bound form value takes. */
  datatype Value = Nil | Bool(b: bool) | Int(i: Int64) | Float(f: Float64) | Str(s: string) | Time(t: Instant)

  /** One database row or one bound form, keyed by column name. */
  type Row = map<string, Value>

  /** The request's query string, form body or path parameters. */
  type Params = map<string, string>

  /**
   * Library operations whose semantics the model does not interpret:
   * `strconv.ParseFloat(s, 64)`, `strconv.FormatFloat(f, 'f', decimals, 64)`,
   * `fmt.Sprint` of a float64 and of a time.Time, `time.Parse(layout, s)` and
   * `t.Format(layout)`.
   */
  datatype Runtime = Runtime(
    parseFloat: string -> Option<Float64>,
    formatFloat: (Float64, int) -> string,
    sprintFloat: Float64 -> string,
    parseTime: (string, string) -> Option<Instant>,
    formatTime: (Instant, string) -> string,
    sprintTime: Instant -> string)

  /** `c.Query(key)`, `c.PostForm(key)`, `c.Param(key)`: a missing key reads as "". */
  function Lookup(p: Params, key: string): (v: string)
    ensures key !in p ==> v == ""
  {
    if key in p then p[key] else ""
  }

  /** `c.DefaultQuery(key, d)`: the default only when the key is absent, so a present empty value stays "". */
  function DefaultQuery(p: Params, key: string, d: string): (v: string)
    ensures key in p ==> v == p[key]
  {
    if key in p then p[key] else d
  }

  /** `row[key]` on a Go map: a missing key reads as nil. */
  function Get(row: Row, key: string): Value
  {
    if key in row then row[key] else Nil
  }

  /** `fmt.Sprint(v)` for the value kinds a row holds. */
  function Sprint(rt: Runtime, v: Value): string
  {
    match v
    case Nil => "<nil>"
    case Bool(b) => if b then "true" else "false"
    case Int(i) => Itoa(i)
    case Float(f) => rt.sprintFloat(f)
    case Str(s) => s
    case Time(t) => rt.sprintTime(t)
  }
}
