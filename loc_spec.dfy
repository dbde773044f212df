/** The data of main.go (`LanguageConfig`, `Config`), the filesystem the
    walk sees, and what one walk does, step by step, as the source runs it:
    every file is checked against every (language, extension) pair in
    order, every matching pair counts the file once more, and the first
    error ends the walk. */
module LocSpec {
  import opened Wrappers
  import opened Lines
  import opened SkipRules
  import opened Outcomes

  /** A language's skip patterns and the extensions of its files. */
  datatype LanguageConfig = LanguageConfig(skipPatterns: seq<string>, extensions: seq<string>)

  /** The languages by name. The source keeps them in a map, which it
      iterates in no fixed order; here they are a sequence in some order. */
  datatype Config = Config(languages: seq<(string, LanguageConfig)>)

  /** The errors a scan can end with, each carrying the path it concerns. */
  datatype Error =
    | OpenError(path: string)   // the file could not be opened
    | ReadError(path: string)   // the line scanner stopped with an error
    | WalkError(path: string)   // the walk could not stat or list an entry

  /** What opening and reading a file yields: either it cannot be opened,
      or the scanner delivers `text` and then stops, with an error when
      `readFails` (a failed read, or a line too long for the scanner). */
  datatype FileBody = Unopenable | Contents(text: string, readFails: bool)

  /** An entry of the directory tree. The walk visits children in the
      order given (the source's walk lists them in lexical order). */
  datatype Node =
    | File(name: string, body: FileBody)
    | Dir(name: string, children: seq<Node>)
    | Faulty(name: string)   // an entry the walk reports an error for

  /** The path the walk gives a child of the directory at `dir`: the
      directory's path, a separator, then the child's name. */
  function ChildPath(dir: string, child: Node): (p: string)
    ensures dir < p && p[|dir|] == '/'
  {
    dir + "/" + child.name
  }

  /** Literal, case-sensitive suffix test on the whole path: `suffix` is
      some tail of `s`. */
  function HasSuffix(s: string, suffix: string): (b: bool)
    ensures b <==> exists i :: 0 <= i <= |s| && s[i..] == suffix
  {
    var b := |suffix| <= |s| && s[|s| - |suffix|..] == suffix;
    assert b ==> s[|s| - |suffix|..] == suffix;
    b
  }

  /** The file opens and the scanner reads it to the end without error. */
  predicate Readable(body: FileBody) {
    body.Contents? && !body.readFails
  }

  /** The error counting a file that is not `Readable` ends with. */
  function BodyError(path: string, body: FileBody): Error {
    if body.Unopenable? then OpenError(path) else ReadError(path)
  }

  /** Counting the lines of one file: 0 and an error when the file cannot
      be opened or the scanner fails, otherwise the lines no skip pattern matches. */
  function CountOutcome(path: string, body: FileBody, skipPatterns: seq<string>, matches: Matcher): (r: Outcome<Error>)
    ensures r.err.None? <==> Readable(body)
    ensures r.err.Some? ==> r == Outcome(0, Some(BodyError(path, body)))
    ensures r.err.None? ==> r.added <= |SplitLines(body.text)|
  {
    match body
    case Unopenable => Outcome(0, Some(OpenError(path)))
    case Contents(text, readFails) =>
      if readFails then Outcome(0, Some(ReadError(path)))
      else Outcome(|Kept(SplitLines(text), skipPatterns, matches)|, None)
  }

  /** One (language, extension) pair applied to the file at `path`: a pair
      whose extension does not end the path does nothing. */
  function ExtStep(path: string, body: FileBody, lang: LanguageConfig, ext: string, matches: Matcher): (r: Outcome<Error>)
    ensures r.err.None? <==> Readable(body) || !HasSuffix(path, ext)
    ensures r.err.Some? ==> r == Outcome(0, Some(BodyError(path, body)))
    ensures !HasSuffix(path, ext) ==> r.added == 0
  {
    if HasSuffix(path, ext) then CountOutcome(path, body, lang.skipPatterns, matches) else Done()
  }

  function ExtSteps(path: string, body: FileBody, lang: LanguageConfig, matches: Matcher): seq<Outcome<Error>> {
    seq(|lang.extensions|, j requires 0 <= j < |lang.extensions| => ExtStep(path, body, lang, lang.extensions[j], matches))
  }

  /** All extensions of one language applied to the file at `path`. A
      readable file never fails; an unreadable one adds nothing and fails,
      if at all, with the error of opening or reading it. */
  function LangOutcome(path: string, body: FileBody, lang: LanguageConfig, matches: Matcher): (r: Outcome<Error>)
    ensures Readable(body) ==> r.err.None?
    ensures !Readable(body) ==> r.added == 0 && (r.err.None? || r.err == Some(BodyError(path, body)))
  {
    var steps := ExtSteps(path, body, lang, matches);
    if Readable(body) then
      RunSucceeds(steps);
      Run(steps)
    else
      RunZeroOr(steps, BodyError(path, body));
      Run(steps)
  }

  function LangSteps(path: string, body: FileBody, languages: seq<(string, LanguageConfig)>, matches: Matcher): seq<Outcome<Error>> {
    seq(|languages|, i requires 0 <= i < |languages| => LangOutcome(path, body, languages[i].1, matches))
  }

  /** Every language applied, in the given order, to the file at `path`,
      with the same guarantees as for one language. */
  function FileOutcome(path: string, body: FileBody, languages: seq<(string, LanguageConfig)>, matches: Matcher): (r: Outcome<Error>)
    ensures Readable(body) ==> r.err.None?
    ensures !Readable(body) ==> r.added == 0 && (r.err.None? || r.err == Some(BodyError(path, body)))
  {
    var steps := LangSteps(path, body, languages, matches);
    if Readable(body) then
      RunSucceeds(steps);
      Run(steps)
    else
      RunZeroOr(steps, BodyError(path, body));
      Run(steps)
  }

  /** The walk of the subtree `node` found at `path`. Directories add
      nothing themselves; faulty entries end the walk. An error always
      names a path inside the subtree. */
  function NodeOutcome(path: string, node: Node, languages: seq<(string, LanguageConfig)>, matches: Matcher): (r: Outcome<Error>)
    ensures r.err.Some? ==> path <= r.err.value.path
    decreases node, 1
  {
    match node
    case Faulty(_) => Outcome(0, Some(WalkError(path)))
    case File(_, body) => FileOutcome(path, body, languages, matches)
    case Dir(_, _) =>
      var steps := ChildSteps(path, node, languages, matches);
      RunErrorFrom(steps, (e: Error) => path <= e.path);
      Run(steps)
  }

  /** The walks of the children of the directory `node`, in listing order. */
  function ChildSteps(path: string, node: Node, languages: seq<(string, LanguageConfig)>, matches: Matcher): (steps: seq<Outcome<Error>>)
    requires node.Dir?
    ensures |steps| == |node.children|
    ensures forall k :: 0 <= k < |steps| && steps[k].err.Some? ==> path < steps[k].err.value.path
    decreases node, 0
  {
    seq(|node.children|, k requires 0 <= k < |node.children| =>
      NodeOutcome(ChildPath(path, node.children[k]), node.children[k], languages, matches))
  }
}
