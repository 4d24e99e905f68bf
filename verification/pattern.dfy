/** The file name test `re.search(prefix + '[\w, ]*' + suffix, name)`, with
    prefix and suffix read as literal text in which only `.` is special. */
module Pattern {

  /** The character class `[\w, ]`: ASCII letters, digits, `_`, `,` and space. */
  predicate IsWordOrSpace(c: char) {
    || ('a' <= c <= 'z')
    || ('A' <= c <= 'Z')
    || ('0' <= c <= '9')
    || c == '_'
    || c == ','
    || c == ' '
  }

  /** One pattern character against one name character: `.` matches any
      character but a newline, every other character only itself. */
  predicate CharMatches(pc: char, c: char) {
    if pc == '.' then c != '\n' else pc == c
  }

  /** `lit` matches `name` starting at position `i`. */
  predicate LiteralAt(name: string, i: nat, lit: string) {
    i + |lit| <= |name| && forall k :: 0 <= k < |lit| ==> CharMatches(lit[k], name[i + k])
  }

  /** Every character of `name[lo..hi]` is in the class. */
  predicate WordRun(name: string, lo: nat, hi: nat)
    requires lo <= hi <= |name|
  {
    forall k :: lo <= k < hi ==> IsWordOrSpace(name[k])
  }

  /** The pattern matches `name[i..e + |suffix|]`: the prefix at `i`, a run of
      class characters up to `e`, the suffix at `e`. */
  predicate MatchSpan(name: string, prefix: string, suffix: string, i: nat, e: nat) {
    && i + |prefix| <= e <= |name|
    && LiteralAt(name, i, prefix)
    && WordRun(name, i + |prefix|, e)
    && LiteralAt(name, e, suffix)
  }

  /** The search succeeds somewhere in the name: the match is not anchored. */
  predicate Matches(name: string, prefix: string, suffix: string) {
    exists i: nat, e: nat :: i <= e <= |name| && MatchSpan(name, prefix, suffix, i, e)
  }

  /** A left-to-right search for a match: for each start where the prefix
      fits, extend the class run until the suffix fits or the run ends. */
  method Search(name: string, prefix: string, suffix: string) returns (found: bool)
    ensures found <==> Matches(name, prefix, suffix)
  {
    var i := 0;
    while i + |prefix| <= |name|
      invariant forall i': nat, e: nat :: i' < i && i' <= e <= |name| ==> !MatchSpan(name, prefix, suffix, i', e)
      decreases |name| - i
    {
      if LiteralAt(name, i, prefix) {
        var e := i + |prefix|;
        while true
          invariant i + |prefix| <= e <= |name|
          invariant WordRun(name, i + |prefix|, e)
          invariant forall e': nat :: i + |prefix| <= e' < e ==> !LiteralAt(name, e', suffix)
          decreases |name| - e
        {
          if LiteralAt(name, e, suffix) {
            assert MatchSpan(name, prefix, suffix, i, e);
            return true;
          }
          if e < |name| && IsWordOrSpace(name[e]) {
            e := e + 1;
          } else {
            break;
          }
        }
        forall e': nat | i <= e' <= |name|
          ensures !MatchSpan(name, prefix, suffix, i, e')
        {
          if e < e' {
            assert !IsWordOrSpace(name[e]);
            assert !WordRun(name, i + |prefix|, e');
          }
        }
      }
      i := i + 1;
    }
    return false;
  }

  lemma LiteralAtSelf(name: string, i: nat, lit: string)
    requires i + |lit| <= |name| && name[i..i + |lit|] == lit
    ensures LiteralAt(name, i, lit)
  {
  }

  /** A name holding the prefix, a run of class characters and the suffix,
      anywhere and surrounded by anything, is selected; with an empty run this
      is the prefix directly followed by the suffix. */
  lemma {:induction false} MatchesAnywhere(before: string, prefix: string, run: string, suffix: string, after: string)
    requires forall k :: 0 <= k < |run| ==> IsWordOrSpace(run[k])
    ensures Matches(before + prefix + run + suffix + after, prefix, suffix)
  {
    var name := before + prefix + run + suffix + after;
    var i := |before|;
    var e := |before| + |prefix| + |run|;
    assert name[i..i + |prefix|] == prefix;
    assert name[e..e + |suffix|] == suffix;
    LiteralAtSelf(name, i, prefix);
    LiteralAtSelf(name, e, suffix);
    forall k | i + |prefix| <= k < e
      ensures IsWordOrSpace(name[k])
    {
      assert name[k] == run[k - i - |prefix|];
    }
    assert MatchSpan(name, prefix, suffix, i, e);
  }

  /** A name shorter than prefix and suffix together is never selected. */
  lemma TooShortNeverMatches(name: string, prefix: string, suffix: string)
    requires |name| < |prefix| + |suffix|
    ensures !Matches(name, prefix, suffix)
  {
  }

  /** The conventional sample name is selected. */
  lemma SampleNameSelected()
    ensures Matches("PREFIX_20240101_SUFFIX.csv", "PREFIX_", "_SUFFIX.csv")
  {
    var name: string := "PREFIX_20240101_SUFFIX.csv";
    assert name == [] + "PREFIX_" + "20240101" + "_SUFFIX.csv" + [];
    MatchesAnywhere([], "PREFIX_", "20240101", "_SUFFIX.csv", []);
  }

  /** A name of another shape is left alone. */
  lemma OtherNameIgnored()
    ensures !Matches("other.txt", "PREFIX_", "_SUFFIX.csv")
  {
  }
}
