/** The `Loc` object of main.go: a running total of lines, the language
    configuration and the directory to scan. `Scan` walks the directory
    tree and adds, for every file and every (language, extension) pair
    whose extension ends the file's path, the file's counted lines. */
module Loc {
  import opened Wrappers
  import opened Lines
  import opened SkipRules
  import opened Outcomes
  import opened LocSpec
  import opened LocProperties

  class Loc {
    var totalLines: int
    var config: Config
    var directory: string

    constructor (config: Config, directory: string)
      ensures totalLines == 0 && this.config == config && this.directory == directory
    {
      totalLines := 0;
      this.config := config;
      this.directory := directory;
    }

    /** Whether some skip pattern matches `line`; the scan of the patterns
        stops at the first match. */
    static method MatchesSome(line: string, skipPatterns: seq<string>, matches: Matcher) returns (skip: bool)
      ensures skip == Skipped(line, skipPatterns, matches)
    {
      skip := false;
      var j := 0;
      while j < |skipPatterns|
        invariant 0 <= j <= |skipPatterns|
        invariant forall k :: 0 <= k < j ==> !matches(skipPatterns[k], line)
      {
        if matches(skipPatterns[j], line) {
          skip := true;
          break;
        }
        j := j + 1;
      }
    }

    /** Counts the lines of the file at `filePath`, whose opening and reading
        yields `body`, that none of `skipPatterns` matches. */
    method CountLines(filePath: string, body: FileBody, skipPatterns: seq<string>, matches: Matcher)
      returns (lines: int, err: Option<Error>)
      ensures lines == CountOutcome(filePath, body, skipPatterns, matches).added
      ensures err == CountOutcome(filePath, body, skipPatterns, matches).err
    {
      if body.Unopenable? {
        return 0, Some(OpenError(filePath));
      }
      var scanned := SplitLines(body.text);
      var total := 0;
      var i := 0;
      while i < |scanned|
        invariant 0 <= i <= |scanned|
        invariant total == |Kept(scanned[..i], skipPatterns, matches)|
      {
        var skip := MatchesSome(scanned[i], skipPatterns, matches);
        KeptStep(scanned, i, skipPatterns, matches);
        if !skip {
          total := total + 1;
        }
        i := i + 1;
      }
      if body.readFails {
        return 0, Some(ReadError(filePath));
      }
      assert scanned[..i] == scanned;
      return total, None;
    }

    /** One language's extensions applied to the file at `path`, counting
        the file once per extension that ends its path. */
    method VisitLanguage(path: string, body: FileBody, langConfig: LanguageConfig, matches: Matcher)
      returns (err: Option<Error>)
      modifies this`totalLines
      ensures totalLines == old(totalLines) + LangOutcome(path, body, langConfig, matches).added
      ensures err == LangOutcome(path, body, langConfig, matches).err
    {
      ghost var steps := ExtSteps(path, body, langConfig, matches);
      var j := 0;
      while j < |langConfig.extensions|
        invariant 0 <= j <= |langConfig.extensions|
        invariant Run(steps[..j]).err.None?
        invariant totalLines == old(totalLines) + Run(steps[..j]).added
      {
        var ext := langConfig.extensions[j];
        RunStep(steps, j);
        if HasSuffix(path, ext) {
          var lines, e := CountLines(path, body, langConfig.skipPatterns, matches);
          if e.Some? {
            RunStops(steps, j + 1);
            return e;
          }
          totalLines := totalLines + lines;
        }
        j := j + 1;
      }
      assert steps[..j] == steps;
      return None;
    }

    /** The walk callback on a file: every extension of every language,
        counting the file once per extension that ends its path. */
    method Visit(path: string, body: FileBody, matches: Matcher) returns (err: Option<Error>)
      modifies this`totalLines
      ensures totalLines == old(totalLines) + FileOutcome(path, body, config.languages, matches).added
      ensures err == FileOutcome(path, body, config.languages, matches).err
    {
      var languages := config.languages;
      ghost var steps := LangSteps(path, body, languages, matches);
      var i := 0;
      while i < |languages|
        invariant 0 <= i <= |languages|
        invariant Run(steps[..i]).err.None?
        invariant totalLines == old(totalLines) + Run(steps[..i]).added
      {
        RunStep(steps, i);
        err := VisitLanguage(path, body, languages[i].1, matches);
        if err.Some? {
          RunStops(steps, i + 1);
          return;
        }
        i := i + 1;
      }
      assert steps[..i] == steps;
      return None;
    }

    /** The walk of the subtree `node` found at `path`, stopping at the first error. */
    method Walk(path: string, node: Node, matches: Matcher) returns (err: Option<Error>)
      modifies this`totalLines
      ensures totalLines == old(totalLines) + NodeOutcome(path, node, config.languages, matches).added
      ensures err == NodeOutcome(path, node, config.languages, matches).err
      decreases node
    {
      match node {
        case Faulty(_) =>
          return Some(WalkError(path));
        case File(_, body) =>
          err := Visit(path, body, matches);
        case Dir(_, children) =>
          ghost var steps := ChildSteps(path, node, config.languages, matches);
          var i := 0;
          while i < |children|
            invariant 0 <= i <= |children|
            invariant Run(steps[..i]).err.None?
            invariant totalLines == old(totalLines) + Run(steps[..i]).added
          {
            var child := children[i];
            RunStep(steps, i);
            err := Walk(ChildPath(path, child), child, matches);
            if err.Some? {
              RunStops(steps, i + 1);
              return;
            }
            i := i + 1;
          }
          assert steps[..i] == steps;
          return None;
      }
    }

    /** Scans the tree `root` found at `directory`. The total only grows,
        and what was added before an error stays added. On success the
        total grew by the lines of every file counted once per matching
        (language, extension) pair, whatever the order of the languages
        and of the directory listings. */
    method Scan(root: Node, matches: Matcher) returns (err: Option<Error>)
      modifies this`totalLines
      ensures totalLines == old(totalLines) + NodeOutcome(directory, root, config.languages, matches).added
      ensures err == NodeOutcome(directory, root, config.languages, matches).err
      ensures totalLines >= old(totalLines)
      ensures err.None? <==> WalkSucceeds(directory, root, config.languages)
      ensures err.None? ==> totalLines == old(totalLines) + TreeLines(directory, root, config.languages, matches)
      ensures totalLines <= old(totalLines) + TreeLines(directory, root, config.languages, matches)
    {
      err := Walk(directory, root, matches);
      WalkMeetsReference(directory, root, config.languages, matches);
    }
  }
}
