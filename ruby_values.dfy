/**
 * The few Ruby value rules the configuration code relies on: `nil` and
 * `false` are the only falsy values, and `a || b` answers `a` when it is
 * truthy and `b` otherwise.
 */
module RubyValues {
  import opened Wrappers

  /** A configuration value as Ruby holds it; a proc is known by what it does. */
  datatype Value = Nil | False | True | Str(s: string) | Int(i: int) | Proc(name: string)

  predicate Truthy(v: Value)
  {
    !v.Nil? && !v.False?
  }

  /** Ruby's `a || b`. */
  function Or(a: Value, b: Value): (r: Value)
    ensures r == a || r == b
    ensures Truthy(r) <==> Truthy(a) || Truthy(b)
    ensures Truthy(a) ==> r == a
    ensures !Truthy(a) ==> r == b
  {
    if Truthy(a) then a else b
  }

  /** `ENV[name]`: a string when the variable is set, nil otherwise. */
  function EnvValue(env: Option<string>): (v: Value)
    ensures env.Some? <==> Truthy(v)
    ensures env.Some? ==> v == Str(env.value)
    ensures env.None? ==> v == Nil
  {
    match env
    case None => Nil
    case Some(s) => Str(s)
  }
}
