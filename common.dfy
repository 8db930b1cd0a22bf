/** Values shared by every part of the EC2 configuration model. */
module Common {

  /** An optional argument: Python's `None` or a supplied value. */
  datatype Option<+T> = None | Some(value: T)

  /** Python truthiness of an optional string: `None` and `""` are both falsy. */
  predicate Truthy(o: Option<string>) {
    o.Some? && o.value != ""
  }

  predicate StartsWith(s: string, prefix: string) {
    |prefix| <= |s| && s[..|prefix|] == prefix
  }

  predicate EndsWith(s: string, suffix: string) {
    |suffix| <= |s| && s[|s| - |suffix|..] == suffix
  }

  /** A string that ends in `suffix` differs from any string ending in another character. */
  lemma ConcatDiffersByLastChar(s: string, suffix: string, other: string)
    requires suffix != [] && other != []
    requires suffix[|suffix| - 1] != other[|other| - 1]
    ensures s + suffix != other
  {
  }
}
