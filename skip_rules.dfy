/** Which lines a language's skip patterns leave to be counted. A skip
    pattern is a regular expression; the regexp engine itself is not part
    of this model, so matching is a parameter. */
module SkipRules {

  /** `matches(pattern, line)`: the compiled `pattern` matches somewhere in `line`. */
  type Matcher = (string, string) -> bool

  /** Some skip pattern matches `line`. */
  predicate Skipped(line: string, patterns: seq<string>, matches: Matcher) {
    exists i :: 0 <= i < |patterns| && matches(patterns[i], line)
  }

  /** The lines, in order, that no skip pattern matches. */
  function Kept(lines: seq<string>, patterns: seq<string>, matches: Matcher): (kept: seq<string>)
    ensures |kept| <= |lines|
    ensures forall l :: l in kept ==> l in lines && !Skipped(l, patterns, matches)
  {
    if lines == [] then []
    else
      var last := lines[|lines| - 1];
      Kept(lines[..|lines| - 1], patterns, matches) + (if Skipped(last, patterns, matches) then [] else [last])
  }

  /** Extending the lines by one keeps that line unless a pattern matches it. */
  lemma KeptStep(lines: seq<string>, i: nat, patterns: seq<string>, matches: Matcher)
    requires i < |lines|
    ensures Kept(lines[..i + 1], patterns, matches)
         == Kept(lines[..i], patterns, matches) + (if Skipped(lines[i], patterns, matches) then [] else [lines[i]])
  {
    assert lines[..i + 1][..i] == lines[..i];
  }

  /** Kept lines are counted with their multiplicity: each line appears in
      the result exactly as often as in the file, unless a pattern matches it. */
  lemma {:induction false} KeptMultiplicity(lines: seq<string>, patterns: seq<string>, matches: Matcher, x: string)
    ensures multiset(Kept(lines, patterns, matches))[x]
         == if Skipped(x, patterns, matches) then 0 else multiset(lines)[x]
  {
    if lines != [] {
      var init, last := lines[..|lines| - 1], lines[|lines| - 1];
      assert lines == init + [last];
      KeptMultiplicity(init, patterns, matches, x);
    }
  }

  /** Without skip patterns every line is counted. */
  lemma {:induction false} KeptWithoutPatterns(lines: seq<string>, matches: Matcher)
    ensures Kept(lines, [], matches) == lines
  {
    if lines != [] {
      var init := lines[..|lines| - 1];
      KeptWithoutPatterns(init, matches);
      assert lines == init + [lines[|lines| - 1]];
    }
  }

  /** More patterns never count more lines: if every pattern of `fewer` is
      also in `more` (for instance `more == fewer + [p]`), fewer lines survive `more`. */
  lemma {:induction false} KeptAntitone(lines: seq<string>, fewer: seq<string>, more: seq<string>, matches: Matcher)
    requires forall p :: p in fewer ==> p in more
    ensures |Kept(lines, more, matches)| <= |Kept(lines, fewer, matches)|
  {
    if lines != [] {
      var last := lines[|lines| - 1];
      KeptAntitone(lines[..|lines| - 1], fewer, more, matches);
      if Skipped(last, fewer, matches) {
        var i :| 0 <= i < |fewer| && matches(fewer[i], last);
        assert fewer[i] in more;
        var j :| 0 <= j < |more| && more[j] == fewer[i];
        assert Skipped(last, more, matches);
      }
    }
  }

  /** The order of the skip patterns does not matter: the scan stops at the
      first pattern that matches, but a line is skipped exactly when some
      pattern matches, so a permuted list keeps the same lines. */
  lemma {:induction false} KeptPermutation(lines: seq<string>, patterns: seq<string>, permuted: seq<string>, matches: Matcher)
    requires multiset(patterns) == multiset(permuted)
    ensures Kept(lines, patterns, matches) == Kept(lines, permuted, matches)
  {
    if lines != [] {
      var last := lines[|lines| - 1];
      KeptPermutation(lines[..|lines| - 1], patterns, permuted, matches);
      SkippedPermutation(last, patterns, permuted, matches);
    }
  }

  lemma SkippedPermutation(line: string, patterns: seq<string>, permuted: seq<string>, matches: Matcher)
    requires multiset(patterns) == multiset(permuted)
    ensures Skipped(line, patterns, matches) <==> Skipped(line, permuted, matches)
  {
    if Skipped(line, patterns, matches) {
      var i :| 0 <= i < |patterns| && matches(patterns[i], line);
      assert patterns[i] in multiset(permuted);
      var j :| 0 <= j < |permuted| && permuted[j] == patterns[i];
    }
    if Skipped(line, permuted, matches) {
      var j :| 0 <= j < |permuted| && matches(permuted[j], line);
      assert permuted[j] in multiset(patterns);
      var i :| 0 <= i < |patterns| && patterns[i] == permuted[j];
    }
  }
}
