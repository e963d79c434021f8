/** Small shared vocabulary: optional columns, and texts as sequences of characters. */
module Prelude {
  datatype Option<+T> = None | Some(value: T)

  /** Python's truth test on an optional string: absent and empty are both false. */
  predicate Truthy(o: Option<string>) {
    o.Some? && o.value != ""
  }

  predicate StartsWith(s: string, p: string) {
    |p| <= |s| && s[..|p|] == p
  }

  /** `s.rstrip(c)` for a single character. */
  function RStrip(s: string, c: char): (r: string)
    ensures r <= s && (r != [] ==> r[|r| - 1] != c)
    ensures forall i :: |r| <= i < |s| ==> s[i] == c
  {
    if s != [] && s[|s| - 1] == c then RStrip(s[..|s| - 1], c) else s
  }
}
