/** The dynamically typed values the validators receive before type checking:
    `None`, `bool`, `int`, `str` and `datetime.date`, with Python's `str(v)`
    and truthiness. */
module PyValues {
  import opened Numerals
  import opened Dates

  datatype PyValue =
    | PyNone
    | PyBool(b: bool)
    | PyInt(i: int)
    | PyStr(s: string)
    | PyDate(d: Date)

  /** The values that can actually occur: a `date` object is always a valid date. */
  predicate WellFormed(v: PyValue) {
    v.PyDate? ==> IsValidDate(v.d)
  }

  /** `str(v)`. */
  function Str(v: PyValue): (r: string)
    requires WellFormed(v)
    ensures v.PyStr? ==> r == v.s
  {
    match v
    case PyNone => "None"
    case PyBool(b) => if b then "True" else "False"
    case PyInt(i) => IntToString(i)
    case PyStr(s) => s
    case PyDate(d) => IsoFormat(d)
  }

  /** `bool(v)`. */
  predicate Truthy(v: PyValue) {
    match v
    case PyNone => false
    case PyBool(b) => b
    case PyInt(i) => i != 0
    case PyStr(s) => s != []
    case PyDate(_) => true
  }

  /** `str()` of a value other than a string is never empty, so the only
      falsy value with an empty rendering is `''`. */
  lemma StrNonEmpty(v: PyValue)
    requires WellFormed(v) && !v.PyStr?
    ensures Str(v) != []
  {
  }
}
