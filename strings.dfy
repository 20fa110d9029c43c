/** The JavaScript string operations the plugin uses, on strings as sequences of Dafny
    characters (Unicode scalar values). JavaScript counts UTF-16 code units; the two
    agree on the ASCII paths and import paths the plugin handles. */
module Strings {

  /** `s.startsWith(prefix)` */
  predicate StartsWith(s: string, prefix: string) {
    |prefix| <= |s| && s[..|prefix|] == prefix
  }

  /** `s.endsWith(suffix)` */
  predicate EndsWith(s: string, suffix: string) {
    |suffix| <= |s| && s[|s| - |suffix|..] == suffix
  }

  /** `s.lastIndexOf(c)`: the position of the last `c` in `s`, or -1. */
  function LastIndexOf(s: string, c: char): (k: int)
    ensures -1 <= k < |s|
    ensures 0 <= k ==> s[k] == c
    ensures forall j :: k < j < |s| ==> s[j] != c
  {
    if |s| == 0 then -1
    else if s[|s| - 1] == c then |s| - 1
    else LastIndexOf(s[..|s| - 1], c)
  }

  /** Two prefixes of one string that have the same length are the same string. */
  lemma SamePrefixLength(s: string, p: string, q: string)
    requires StartsWith(s, p) && StartsWith(s, q) && |p| == |q|
    ensures p == q
  {
  }
}
