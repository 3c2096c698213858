/** The dynamically typed values (`any`) that feature options hold. */
module Values {

  /** `Other` stands for every Go type the core's type switches do not accept
      (float64 from JSON numbers, slices, maps, ...), named by its Go type. */
  datatype Value = Nil | Str(s: string) | Int(i: int) | Bool(b: bool) | Other(goType: string)

  /** What `%T` prints for a value. */
  function TypeName(v: Value): (r: string)
    ensures v.Other? ==> r == v.goType
  {
    match v
    case Nil => "<nil>"
    case Str(_) => "string"
    case Int(_) => "int"
    case Bool(_) => "bool"
    case Other(t) => t
  }
}
