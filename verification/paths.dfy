/** POSIX path helpers used when the configuration is resolved. */
module Paths {

  const Separator: char := '/'

  predicate EndsWithSeparator(p: string) {
    |p| > 0 && p[|p| - 1] == Separator
  }

  /** `os.path.join(p, '')` on a POSIX system: a separator is appended unless
      `p` is empty or already ends with one.  Nothing is ever removed, so a
      path that ends in several separators keeps all of them. */
  function JoinEmpty(p: string): (r: string)
    ensures p <= r
    ensures |r| <= |p| + 1
    ensures p != [] ==> EndsWithSeparator(r)
    ensures EndsWithSeparator(p) || p == [] <==> r == p
  {
    if p == [] || EndsWithSeparator(p) then p else p + [Separator]
  }

  /** Normalising an already normalised path changes nothing. */
  lemma JoinEmptyIdempotent(p: string)
    ensures JoinEmpty(JoinEmpty(p)) == JoinEmpty(p)
  {
  }

  /** The join only ever adds a separator; it never collapses repeated ones. */
  lemma JoinEmptyKeepsRepeatedSeparators()
    ensures JoinEmpty("data//") == "data//"
  {
  }
}
