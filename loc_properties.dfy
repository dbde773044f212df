/** What a scan adds, stated without the walk's order or its early exit:
    a reference total (every file's lines times the number of
    (language, extension) pairs that match its path) and a reference
    success condition, and the lemmas that tie the walk of `LocSpec` to
    them, including that neither the order of the languages nor the order
    of directory listings changes the result of a successful scan. */
module LocProperties {
  import opened Wrappers
  import opened Lines
  import opened SkipRules
  import opened Sums
  import opened Outcomes
  import opened LocSpec

  /** The lines of a readable file that the skip patterns leave; 0 otherwise. */
  function BodyLines(body: FileBody, skipPatterns: seq<string>, matches: Matcher): nat {
    if Readable(body) then |Kept(SplitLines(body.text), skipPatterns, matches)| else 0
  }

  /** How many entries of `extensions` end `path`; an extension listed twice counts twice. */
  function MatchingExtensions(path: string, extensions: seq<string>): nat {
    if extensions == [] then 0
    else
      MatchingExtensions(path, extensions[..|extensions| - 1])
        + (if HasSuffix(path, extensions[|extensions| - 1]) then 1 else 0)
  }

  /** Some entry of `extensions` ends `path`. */
  predicate MatchesAny(path: string, extensions: seq<string>) {
    exists j :: 0 <= j < |extensions| && HasSuffix(path, extensions[j])
  }

  /** One language's contribution for the file at `path`. */
  function LangLines(path: string, body: FileBody, lang: LanguageConfig, matches: Matcher): nat {
    MatchingExtensions(path, lang.extensions) * BodyLines(body, lang.skipPatterns, matches)
  }

  function LangLinesOf(path: string, body: FileBody, matches: Matcher): ((string, LanguageConfig)) -> nat {
    (l: (string, LanguageConfig)) => LangLines(path, body, l.1, matches)
  }

  /** A file's contribution: the sum over all languages. */
  function FileLines(path: string, body: FileBody, languages: seq<(string, LanguageConfig)>, matches: Matcher): nat {
    SumOf(languages, LangLinesOf(path, body, matches))
  }

  /** Visiting a file succeeds when it is readable or no extension matches
      its path (a file no language claims is never opened). */
  predicate FileSucceeds(path: string, body: FileBody, languages: seq<(string, LanguageConfig)>) {
    Readable(body) || forall l :: l in languages ==> !MatchesAny(path, l.1.extensions)
  }

  /** The reference total of the subtree `node` found at `path`. */
  function TreeLines(path: string, node: Node, languages: seq<(string, LanguageConfig)>, matches: Matcher): nat
    decreases node, 1
  {
    match node
    case Faulty(_) => 0
    case File(_, body) => FileLines(path, body, languages, matches)
    case Dir(_, _) => SumOf(ChildLines(path, node, languages, matches), Identity)
  }

  function ChildLines(path: string, node: Node, languages: seq<(string, LanguageConfig)>, matches: Matcher): seq<nat>
    requires node.Dir?
    decreases node, 0
  {
    seq(|node.children|, k requires 0 <= k < |node.children| =>
      TreeLines(ChildPath(path, node.children[k]), node.children[k], languages, matches))
  }

  function TreeLinesOf(path: string, languages: seq<(string, LanguageConfig)>, matches: Matcher): Node -> nat {
    (c: Node) => TreeLines(ChildPath(path, c), c, languages, matches)
  }

  /** The reference success condition: no faulty entry, and every file that
      some language claims is readable. */
  predicate WalkSucceeds(path: string, node: Node, languages: seq<(string, LanguageConfig)>)
    decreases node
  {
    match node
    case Faulty(_) => false
    case File(_, body) => FileSucceeds(path, body, languages)
    case Dir(_, children) =>
      forall k :: 0 <= k < |children| ==> WalkSucceeds(ChildPath(path, children[k]), children[k], languages)
  }

  /** Counting with no skip patterns gives the file's number of lines: one per
      '\n' plus one for an unterminated last line; an empty file gives 0. */
  lemma CountWithoutPatterns(path: string, text: string, matches: Matcher)
    ensures CountOutcome(path, Contents(text, false), [], matches)
         == Outcome(multiset(text)['\n'] + (if Unterminated(text) then 1 else 0), None)
    ensures text == [] ==> CountOutcome(path, Contents(text, false), [], matches) == Outcome(0, None)
  {
    KeptWithoutPatterns(SplitLines(text), matches);
    LineCount(text);
  }

  /** Counting never yields more than the scanner's lines, and appending a
      skip pattern never yields more than before. */
  lemma CountBounded(path: string, body: FileBody, patterns: seq<string>, extra: string, matches: Matcher)
    ensures body.Contents? ==> CountOutcome(path, body, patterns, matches).added <= |SplitLines(body.text)|
    ensures CountOutcome(path, body, patterns + [extra], matches).added <= CountOutcome(path, body, patterns, matches).added
  {
    if body.Contents? {
      KeptAntitone(SplitLines(body.text), patterns, patterns + [extra], matches);
    }
  }

  /** What one extension contributes to the reference: the file's lines when it ends `path`. */
  function ExtLinesOf(path: string, lines: nat): string -> nat {
    (ext: string) => if HasSuffix(path, ext) then lines else 0
  }

  /** Adding the file's lines once per matching extension is multiplying
      them by the number of matching extensions. */
  lemma {:induction false} SumOfMatching(path: string, extensions: seq<string>, lines: nat)
    ensures SumOf(extensions, ExtLinesOf(path, lines)) == MatchingExtensions(path, extensions) * lines
  {
    if extensions != [] {
      var init := extensions[..|extensions| - 1];
      SumOfMatching(path, init, lines);
      var n := MatchingExtensions(path, init);
      var d := if HasSuffix(path, extensions[|extensions| - 1]) then 1 else 0;
      MultiplyStep(n, d, lines);
    }
  }

  lemma MultiplyStep(n: nat, d: nat, b: nat)
    requires d <= 1
    ensures (n + d) * b == n * b + (if d == 1 then b else 0)
  {
  }

  /** One language's pass over a file: it fails exactly when the file is
      unreadable and one of the language's extensions matches, and it adds
      the file's lines once per matching extension. */
  lemma LangMeetsReference(path: string, body: FileBody, lang: LanguageConfig, matches: Matcher)
    ensures LangOutcome(path, body, lang, matches).err.None? <==> Readable(body) || !MatchesAny(path, lang.extensions)
    ensures LangOutcome(path, body, lang, matches).added == LangLines(path, body, lang, matches)
  {
    var steps := ExtSteps(path, body, lang, matches);
    var exts := lang.extensions;
    var b := BodyLines(body, lang.skipPatterns, matches);
    var f := ExtLinesOf(path, b);
    forall j | 0 <= j < |exts|
      ensures AddedOf(steps[j]) == f(exts[j])
      ensures steps[j].err.None? <==> Readable(body) || !HasSuffix(path, exts[j])
    {
      assert steps[j] == ExtStep(path, body, lang, exts[j], matches);
    }
    RunSucceeds(steps);
    SumOfPointwise(steps, AddedOf, exts, f);
    SumOfMatching(path, exts, b);
    if !Readable(body) {
      assert b == 0;
    }
  }

  /** Visiting a file: it fails exactly when `FileSucceeds` does not hold,
      it never adds more than the reference, and on success it adds the
      reference: the sum of one independent count per matching
      (language, extension) pair. */
  lemma FileMeetsReference(path: string, body: FileBody, languages: seq<(string, LanguageConfig)>, matches: Matcher)
    ensures FileOutcome(path, body, languages, matches).err.None? <==> FileSucceeds(path, body, languages)
    ensures FileOutcome(path, body, languages, matches).added <= FileLines(path, body, languages, matches)
    ensures FileOutcome(path, body, languages, matches).err.None? ==>
      FileOutcome(path, body, languages, matches).added == FileLines(path, body, languages, matches)
  {
    var steps := LangSteps(path, body, languages, matches);
    var f := LangLinesOf(path, body, matches);
    forall i | 0 <= i < |languages|
      ensures AddedOf(steps[i]) == f(languages[i])
      ensures steps[i].err.None? <==> Readable(body) || !MatchesAny(path, languages[i].1.extensions)
    {
      LangMeetsReference(path, body, languages[i].1, matches);
    }
    RunSucceeds(steps);
    SumOfPointwise(steps, AddedOf, languages, f);
    if FileSucceeds(path, body, languages) && !Readable(body) {
      forall i | 0 <= i < |languages| ensures steps[i].err.None? {
        assert languages[i] in languages;
      }
    }
  }

  /** The walk of a subtree: it fails exactly when `WalkSucceeds` does not
      hold, it never adds more than the reference total, and on success it
      adds exactly the reference total. */
  lemma {:induction false} WalkMeetsReference(path: string, node: Node, languages: seq<(string, LanguageConfig)>, matches: Matcher)
    ensures NodeOutcome(path, node, languages, matches).err.None? <==> WalkSucceeds(path, node, languages)
    ensures NodeOutcome(path, node, languages, matches).added <= TreeLines(path, node, languages, matches)
    ensures NodeOutcome(path, node, languages, matches).err.None? ==>
      NodeOutcome(path, node, languages, matches).added == TreeLines(path, node, languages, matches)
    decreases node
  {
    match node
    case Faulty(_) =>
    case File(_, body) =>
      FileMeetsReference(path, body, languages, matches);
    case Dir(_, children) =>
      var steps := ChildSteps(path, node, languages, matches);
      var lines := ChildLines(path, node, languages, matches);
      forall k | 0 <= k < |children|
        ensures steps[k].err.None? <==> WalkSucceeds(ChildPath(path, children[k]), children[k], languages)
        ensures AddedOf(steps[k]) <= Identity(lines[k])
        ensures steps[k].err.None? ==> AddedOf(steps[k]) == Identity(lines[k])
      {
        WalkMeetsReference(ChildPath(path, children[k]), children[k], languages, matches);
      }
      RunSucceeds(steps);
      SumOfPointwiseLe(steps, AddedOf, lines, Identity);
      if Run(steps).err.None? {
        SumOfPointwise(steps, AddedOf, lines, Identity);
      }
  }

  /** The order in which the configured languages are visited changes
      neither the reference total nor whether the walk succeeds. */
  lemma {:induction false} LanguagesPermuted(path: string, node: Node, languages: seq<(string, LanguageConfig)>,
                                             permuted: seq<(string, LanguageConfig)>, matches: Matcher)
    requires multiset(languages) == multiset(permuted)
    ensures TreeLines(path, node, languages, matches) == TreeLines(path, node, permuted, matches)
    ensures WalkSucceeds(path, node, languages) <==> WalkSucceeds(path, node, permuted)
    decreases node
  {
    match node
    case Faulty(_) =>
    case File(_, body) =>
      SumOfPermutation(languages, permuted, LangLinesOf(path, body, matches));
      forall l ensures l in languages <==> l in permuted {
        assert l in languages <==> l in multiset(languages);
        assert l in permuted <==> l in multiset(permuted);
      }
    case Dir(_, children) =>
      forall k | 0 <= k < |children|
        ensures TreeLines(ChildPath(path, children[k]), children[k], languages, matches)
             == TreeLines(ChildPath(path, children[k]), children[k], permuted, matches)
        ensures WalkSucceeds(ChildPath(path, children[k]), children[k], languages)
            <==> WalkSucceeds(ChildPath(path, children[k]), children[k], permuted)
      {
        LanguagesPermuted(ChildPath(path, children[k]), children[k], languages, permuted, matches);
      }
      SumOfPointwise(ChildLines(path, node, languages, matches), Identity,
                     ChildLines(path, node, permuted, matches), Identity);
  }

  /** Visiting a file gives the same outcome, what it adds and how it
      ends, whatever the order of the languages. */
  lemma FileOutcomePermuted(path: string, body: FileBody, languages: seq<(string, LanguageConfig)>,
                            permuted: seq<(string, LanguageConfig)>, matches: Matcher)
    requires multiset(languages) == multiset(permuted)
    ensures FileOutcome(path, body, languages, matches) == FileOutcome(path, body, permuted, matches)
  {
    FileMeetsReference(path, body, languages, matches);
    FileMeetsReference(path, body, permuted, matches);
    SumOfPermutation(languages, permuted, LangLinesOf(path, body, matches));
    forall l ensures l in languages <==> l in permuted {
      assert l in languages <==> l in multiset(languages);
      assert l in permuted <==> l in multiset(permuted);
    }
    assert FileSucceeds(path, body, languages) <==> FileSucceeds(path, body, permuted);
  }

  /** The walk of a subtree gives the same outcome, what it adds and how
      it ends, whatever the order of the languages. */
  lemma {:induction false} NodeOutcomePermuted(path: string, node: Node, languages: seq<(string, LanguageConfig)>,
                                               permuted: seq<(string, LanguageConfig)>, matches: Matcher)
    requires multiset(languages) == multiset(permuted)
    ensures NodeOutcome(path, node, languages, matches) == NodeOutcome(path, node, permuted, matches)
    decreases node
  {
    match node
    case Faulty(_) =>
    case File(_, body) =>
      FileOutcomePermuted(path, body, languages, permuted, matches);
    case Dir(_, children) =>
      forall k | 0 <= k < |children|
        ensures NodeOutcome(ChildPath(path, children[k]), children[k], languages, matches)
             == NodeOutcome(ChildPath(path, children[k]), children[k], permuted, matches)
      {
        NodeOutcomePermuted(ChildPath(path, children[k]), children[k], languages, permuted, matches);
      }
      assert ChildSteps(path, node, languages, matches) == ChildSteps(path, node, permuted, matches);
  }

  /** `b` is `a` with the entries of every directory listed in some order. */
  ghost predicate Reordered(a: Node, b: Node)
    decreases a
  {
    match a
    case Dir(name, children) =>
      b.Dir? && b.name == name &&
      exists order: seq<Node> ::
        |order| == |children| && multiset(order) == multiset(b.children) &&
        forall k :: 0 <= k < |children| ==> Reordered(children[k], order[k])
    case _ => b == a
  }

  /** A directory's reference total is the sum of its children's. */
  lemma DirLines(path: string, node: Node, languages: seq<(string, LanguageConfig)>, matches: Matcher)
    requires node.Dir?
    ensures TreeLines(path, node, languages, matches) == SumOf(node.children, TreeLinesOf(path, languages, matches))
  {
    SumOfPointwise(ChildLines(path, node, languages, matches), Identity, node.children, TreeLinesOf(path, languages, matches));
  }

  /** The order of the directory listings does not change the reference total. */
  lemma {:induction false} TreeReordered(path: string, a: Node, b: Node, languages: seq<(string, LanguageConfig)>, matches: Matcher)
    requires Reordered(a, b)
    ensures TreeLines(path, a, languages, matches) == TreeLines(path, b, languages, matches)
    decreases a
  {
    if a.Dir? {
      var children := a.children;
      var order: seq<Node> :| |order| == |children| && multiset(order) == multiset(b.children) &&
        forall k :: 0 <= k < |children| ==> Reordered(children[k], order[k]);
      var f := TreeLinesOf(path, languages, matches);
      forall k | 0 <= k < |children| ensures f(children[k]) == f(order[k]) {
        ReorderedSameName(children[k], order[k]);
        TreeReordered(ChildPath(path, children[k]), children[k], order[k], languages, matches);
      }
      DirLines(path, a, languages, matches);
      DirLines(path, b, languages, matches);
      SumOfPointwise(children, f, order, f);
      SumOfPermutation(order, b.children, f);
    }
  }

  /** The order of the directory listings does not decide whether the walk succeeds. */
  lemma {:induction false} WalkReordered(path: string, a: Node, b: Node, languages: seq<(string, LanguageConfig)>)
    requires Reordered(a, b)
    ensures WalkSucceeds(path, a, languages) <==> WalkSucceeds(path, b, languages)
    decreases a
  {
    if a.Dir? {
      var children := a.children;
      var order: seq<Node> :| |order| == |children| && multiset(order) == multiset(b.children) &&
        forall k :: 0 <= k < |children| ==> Reordered(children[k], order[k]);
      forall k | 0 <= k < |children|
        ensures WalkSucceeds(ChildPath(path, children[k]), children[k], languages)
            <==> WalkSucceeds(ChildPath(path, order[k]), order[k], languages)
      {
        ReorderedSameName(children[k], order[k]);
        assert ChildPath(path, children[k]) == ChildPath(path, order[k]);
        WalkReordered(ChildPath(path, children[k]), children[k], order[k], languages);
      }
      ListingReordered(path, a, b, order, languages);
    }
  }

  /** A directory walks successfully whatever the order of its listing,
      when its children, paired with `order`, do. */
  lemma ListingReordered(path: string, a: Node, b: Node, order: seq<Node>, languages: seq<(string, LanguageConfig)>)
    requires a.Dir? && b.Dir? && |order| == |a.children| && multiset(order) == multiset(b.children)
    requires forall k :: 0 <= k < |a.children| ==>
      (WalkSucceeds(ChildPath(path, a.children[k]), a.children[k], languages) <==>
       WalkSucceeds(ChildPath(path, order[k]), order[k], languages))
    ensures WalkSucceeds(path, a, languages) <==> WalkSucceeds(path, b, languages)
  {
    assert WalkSucceeds(path, a, languages) <==> AllSucceed(path, a.children, languages);
    assert AllSucceed(path, a.children, languages) <==> AllSucceed(path, order, languages);
    AllSucceedPermuted(path, order, b.children, languages);
    assert WalkSucceeds(path, b, languages) <==> AllSucceed(path, b.children, languages);
  }

  /** Every entry of `nodes`, as children of the directory at `path`, walks successfully. */
  predicate AllSucceed(path: string, nodes: seq<Node>, languages: seq<(string, LanguageConfig)>) {
    forall k :: 0 <= k < |nodes| ==> WalkSucceeds(ChildPath(path, nodes[k]), nodes[k], languages)
  }

  lemma AllSucceedPermuted(path: string, nodes: seq<Node>, permuted: seq<Node>, languages: seq<(string, LanguageConfig)>)
    requires multiset(nodes) == multiset(permuted)
    ensures AllSucceed(path, nodes, languages) <==> AllSucceed(path, permuted, languages)
  {
    if AllSucceed(path, nodes, languages) {
      forall j | 0 <= j < |permuted|
        ensures WalkSucceeds(ChildPath(path, permuted[j]), permuted[j], languages)
      {
        assert permuted[j] in multiset(nodes);
        var k :| 0 <= k < |nodes| && nodes[k] == permuted[j];
      }
    }
    if AllSucceed(path, permuted, languages) {
      forall k | 0 <= k < |nodes|
        ensures WalkSucceeds(ChildPath(path, nodes[k]), nodes[k], languages)
      {
        assert nodes[k] in multiset(permuted);
        var j :| 0 <= j < |permuted| && permuted[j] == nodes[k];
      }
    }
  }

  lemma ReorderedSameName(a: Node, b: Node)
    requires Reordered(a, b)
    ensures a.name == b.name
  {
  }

  /** The result of a successful scan depends neither on the order in which
      the configured languages are visited nor on the order of directory
      listings, and neither order decides whether the scan succeeds. */
  lemma ScanOrderIrrelevant(path: string, root: Node, reordered: Node,
                            languages: seq<(string, LanguageConfig)>, permuted: seq<(string, LanguageConfig)>,
                            matches: Matcher)
    requires Reordered(root, reordered)
    requires multiset(languages) == multiset(permuted)
    ensures NodeOutcome(path, root, languages, matches).err.None? <==> NodeOutcome(path, reordered, permuted, matches).err.None?
    ensures NodeOutcome(path, root, languages, matches).err.None? ==>
      NodeOutcome(path, root, languages, matches).added == NodeOutcome(path, reordered, permuted, matches).added
  {
    WalkMeetsReference(path, root, languages, matches);
    WalkMeetsReference(path, reordered, permuted, matches);
    TreeReordered(path, root, reordered, languages, matches);
    WalkReordered(path, root, reordered, languages);
    LanguagesPermuted(path, reordered, languages, permuted, matches);
  }

  /** A file claimed by two languages with the same configuration is
      counted twice: once for each language. */
  lemma DoubleCount(path: string, body: FileBody, lang: LanguageConfig, first: string, second: string, matches: Matcher)
    requires Readable(body)
    ensures FileOutcome(path, body, [(first, lang), (second, lang)], matches)
         == Outcome(2 * LangLines(path, body, lang, matches), None)
  {
    var languages := [(first, lang), (second, lang)];
    FileMeetsReference(path, body, languages, matches);
    var f := LangLinesOf(path, body, matches);
    assert languages[..1][..0] == [];
    assert SumOf(languages[..1], f) == f(languages[0]);
    assert FileLines(path, body, languages, matches) == SumOf(languages[..1], f) + f(languages[1]);
  }

  /** An error ends the walk of a directory without undoing what was
      already added: when child `k` is the first to fail, the walk ends
      with its error, having added the full reference totals of the
      children before it and whatever child `k` added before failing. */
  lemma ErrorKeepsEarlierLines(path: string, node: Node, languages: seq<(string, LanguageConfig)>, matches: Matcher, k: nat)
    requires node.Dir? && k < |node.children|
    requires forall i :: 0 <= i < k ==>
      NodeOutcome(ChildPath(path, node.children[i]), node.children[i], languages, matches).err.None?
    requires NodeOutcome(ChildPath(path, node.children[k]), node.children[k], languages, matches).err.Some?
    ensures NodeOutcome(path, node, languages, matches)
         == Outcome(SumOf(node.children[..k], TreeLinesOf(path, languages, matches))
                      + NodeOutcome(ChildPath(path, node.children[k]), node.children[k], languages, matches).added,
                    NodeOutcome(ChildPath(path, node.children[k]), node.children[k], languages, matches).err)
  {
    var steps := ChildSteps(path, node, languages, matches);
    RunFirstError(steps, k);
    assert steps[..k + 1][..k] == steps[..k];
    assert SumOf(steps[..k + 1], AddedOf) == SumOf(steps[..k], AddedOf) + steps[k].added;
    var f := TreeLinesOf(path, languages, matches);
    forall i | 0 <= i < k ensures AddedOf(steps[..k][i]) == f(node.children[..k][i]) {
      WalkMeetsReference(ChildPath(path, node.children[i]), node.children[i], languages, matches);
    }
    SumOfPointwise(steps[..k], AddedOf, node.children[..k], f);
  }
}
