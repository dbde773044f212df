# loc line counter, modelled in Dafny

`loc` counts lines of code in a directory tree. A `Loc` object holds a
running total (`TotalLines`), a configuration of languages and the
directory to scan. Each language has a list of file extensions and a
list of skip patterns (regular expressions).

`scan` walks the tree. For every file it tries every (language,
extension) pair, and for each pair whose extension is a literal suffix
of the file's full path it calls `countLines` with that language's skip
patterns and adds the result to the total in place. `countLines` opens
the file, splits it into lines the way Go's `bufio.Scanner` does by
default, and counts the lines that no skip pattern matches. The first
error ends the walk. Nothing already added is taken back.

The project is organised as follows:

- `lines.dfy` (`Lines`): the scanner's default line splitting. Pieces
  are separated by `'\n'`, one trailing `'\r'` is dropped from each
  piece, and a final unterminated non-empty piece is a line too. It also
  proves the line count and a split/join round trip.
- `skip_rules.dfy` (`SkipRules`): which lines the skip patterns leave.
  Regular-expression matching is a parameter `matches(pattern, line)`.
- `sums.dfy` (`Sums`) and `outcomes.dfy` (`Outcomes`): sums over
  sequences that do not depend on the order of their terms, and a run of
  steps that stops at its first error.
- `loc_spec.dfy` (`LocSpec`): the data of `main.go` and the filesystem
  as an in-memory tree. `NodeOutcome` states what one walk adds and
  which error it ends with, in the order the source takes its steps.
- `loc.dfy` (`Loc`): the class `Loc` with its `totalLines` field and
  the imperative `CountLines`, `Visit`, `Walk` and `Scan`, each proved
  against `LocSpec`.
- `loc_properties.dfy` (`LocProperties`): an order-free reference. Its
  total is each file's lines times the number of matching (language,
  extension) pairs, summed over files and languages. It also has a
  success condition, and lemmas tying the walk to both. The order of the
  languages changes nothing: what a walk adds and how it ends are the
  same for every order. The order of directory listings decides neither
  whether a scan succeeds nor, on success, the total; a failed scan can
  add different amounts under different listing orders, since the files
  listed before the failing entry stay counted.

`main_test.go` calls exclusion helpers (`shouldExcludeFile`,
`compileExcludePatterns`, `excludeFlags`, `Loc.ExcludePatterns`) that
`main.go` does not define. `scan` in `main.go` applies no exclusion.
The model follows `main.go`.

## Model

| member | source | states |
|---|---|---|
| LocSpec.ChildPath | main.go:96 | the path the walk gives a child lies strictly under its directory's path, after a separator |
| LocSpec.HasSuffix | main.go:104 | `strings.HasSuffix`: the extension is some tail of the full path |
| LocSpec.CountOutcome | main.go:119-157 | `countLines` as a value: it fails exactly when the file cannot be opened or read, then with 0 lines and that error; otherwise it counts at most the scanned lines |
| LocSpec.ExtStep | main.go:104-110 | one (language, extension) pair: it fails only for an unreadable file whose path the extension ends, adding 0; a non-matching pair adds nothing |
| LocSpec.LangOutcome | main.go:103-111 | one language's extensions in order: a readable file never fails; an unreadable one adds nothing and fails, if at all, with its open or read error |
| LocSpec.FileOutcome | main.go:100-112 | every language in order applied to one file, with the same guarantees as for one language |
| LocSpec.NodeOutcome | main.go:96-115 | the walk of a subtree in listing order, stopping at the first error; an error always names a path inside the subtree |
| LocSpec.ChildSteps | main.go:96-99 | the walks of a directory's children in listing order; any error names a path strictly under the directory |
| Lines.SplitLines | main.go:127-138 | the scanner's lines for a text; no line contains `'\n'` |
| Lines.LineCount | main.go:137-149 | the scanner yields one line per `'\n'` plus one for an unterminated last piece; an empty file has no lines |
| Lines.SplitJoin | main.go:137-138 | lines without `'\n'` or a trailing `'\r'`, each terminated by `'\n'`, are split back into exactly those lines |
| SkipRules.Kept | main.go:137-149 | the lines left in order: never more than the input, and each one is an input line that no pattern matches |
| SkipRules.KeptStep | main.go:137-148 | one more scanned line is kept exactly when no pattern matches it |
| SkipRules.KeptMultiplicity | main.go:139-148 | a line is counted as often as it occurs in the file when no pattern matches it, and never otherwise |
| SkipRules.KeptWithoutPatterns | main.go:129-148 | with no skip patterns every line is counted |
| SkipRules.KeptAntitone | main.go:139-148 | a pattern list that contains every pattern of another never counts more lines |
| SkipRules.KeptPermutation | main.go:139-145 | because of the early `break`, a line is skipped when any pattern matches it, so permuting the patterns keeps the same lines |
| SkipRules.SkippedPermutation | main.go:140-145 | whether a line is skipped does not depend on the order of the patterns |
| Sums.SumOfPermutation | main.go:102 | a sum does not depend on the order of its terms |
| Outcomes.RunStep | main.go:102-111 | running one more step continues from the result so far |
| Outcomes.RunStops | main.go:97-108 | once a step fails, later steps change nothing |
| Outcomes.RunFirstError | main.go:97-109 | when step `k` is the first to fail, the run ends with its error and keeps what steps 0 to `k` added |
| Outcomes.RunZeroOr | main.go:105-108 | steps that add nothing and fail, if at all, with one error make a run that does the same |
| Outcomes.RunErrorFrom | main.go:97-99 | the error a run ends with is the error of one of its steps |
| Outcomes.RunSucceeds | main.go:102-111 | a run succeeds exactly when every step does; it adds at most the sum of the steps, and exactly that sum on success |
| Loc.Loc.constructor | main.go:45-50 | a `Loc` starts with a total of 0 and the given configuration and directory |
| Loc.Loc.MatchesSome | main.go:139-145 | the loop over the skip patterns, stopping at the first match, reports exactly whether some pattern matches the line |
| Loc.Loc.CountLines | main.go:119-157 | the count and error are those of `CountOutcome`: 0 and an open error, 0 and a read error, or no error and the number of scanned lines no skip pattern matches |
| Loc.Loc.VisitLanguage | main.go:103-111 | the inner loop over one language's extensions adds, in place, what `LangOutcome` adds and returns its error |
| Loc.Loc.Visit | main.go:100-113 | the total grows by what every matching (language, extension) pair counts, in order, stopping at the first error, which is returned |
| Loc.Loc.Walk | main.go:96-115 | the walk of a subtree adds its files' counts in walk order and returns the first error; a faulty entry is returned as an error |
| Loc.Loc.Scan | main.go:94-116 | the total never decreases; the scan fails exactly when `WalkSucceeds` does not hold; it never adds more than the reference total, and on success it adds exactly that total |
| LocProperties.CountWithoutPatterns | main.go:129-154 | with no skip patterns a readable file counts its `'\n'`s plus one for an unterminated last line; an empty file counts 0 |
| LocProperties.CountBounded | main.go:137-149 | the count never exceeds the file's scanned lines, and appending a skip pattern never raises it |
| LocProperties.SumOfMatching | main.go:103-110 | adding the file's lines once per matching extension equals the lines times the number of matching extensions |
| LocProperties.LangMeetsReference | main.go:103-110 | one language fails exactly when the file is unreadable and one of its extensions matches; it adds the file's lines once per matching extension |
| LocProperties.FileMeetsReference | main.go:100-112 | visiting a file fails exactly when it is unreadable and some pair claims it; it adds at most, and on success exactly, the sum over languages |
| LocProperties.WalkMeetsReference | main.go:96-115 | the walk fails exactly when a faulty entry or an unreadable claimed file exists; directories add nothing; it adds at most, and on success exactly, the reference total |
| LocProperties.FileOutcomePermuted | main.go:102-112 | visiting a file adds the same and ends the same way under every order of the languages |
| LocProperties.NodeOutcomePermuted | main.go:96-115 | the walk of a subtree adds the same and ends the same way under every order of the languages |
| LocProperties.LanguagesPermuted | main.go:102 | permuting the languages changes neither the reference total nor whether the walk succeeds |
| LocProperties.DirLines | main.go:100 | a directory's reference total is the sum of its children's |
| LocProperties.TreeReordered | main.go:96 | reordering directory listings does not change the reference total |
| LocProperties.WalkReordered | main.go:96-99 | reordering directory listings does not decide whether the walk succeeds |
| LocProperties.ListingReordered | main.go:96-99 | a directory's success does not depend on the order of its listing when its children's successes do not |
| LocProperties.AllSucceedPermuted | main.go:96-99 | whether all entries of a listing walk successfully does not depend on their order |
| LocProperties.ReorderedSameName | main.go:96 | a reordered entry keeps its name, so its path is unchanged |
| LocProperties.ScanOrderIrrelevant | main.go:96-109 | neither the language order nor the listing order decides success, and on success the scan adds the same total under any order |
| LocProperties.DoubleCount | main.go:102-111 | for every readable file, two languages with the same configuration count it twice: the visit adds twice one language's reference count, without error |
| LocProperties.ErrorKeepsEarlierLines | main.go:97-109 | when child `k` of a directory is the first to fail, the walk ends with that child's error, keeping the full reference totals of the children before it and what child `k` added |

## Left out

- `readConfig` (working directory, file read, JSON decoding): the model is given a `Config` value.
- `cloneRepo` and `main`: a subprocess, flag parsing, printing and exit codes.
- Regular expressions: compiling and matching are a `matches(pattern, line)` parameter. `regexp.MustCompile` panics on an invalid pattern, and that panic is not modelled.
- Go's map of languages: it is a sequence in some order, and the model uses that one order for every file. Go ranges over the map afresh in each walk callback, so each file may see a different order. `FileOutcomePermuted` shows that every order gives the same file outcome, in both what it adds and how it ends, so per-file orders give the same walk; `NodeOutcomePermuted` shows the same for whole subtrees.
- `filepath.Walk` details: the tree is an in-memory `Node`, and children are visited in the order given rather than sorted lexically. Symlinks and `os.FileInfo` are not modelled.
- Paths: a child's path is its parent's path, `"/"` and its name. `filepath.Join`'s cleaning is not modelled.
- Opening a file by path: the file's `FileBody` is passed in. It says whether the file opens, the text the scanner delivers and whether the scanner then reports an error.
- `bufio.Scanner`'s token-size limit (`ErrTooLong`): it is one of the ways the scanner can report an error (`readFails`).
- Loc.Loc.Scan: `TotalLines` is a Go `int`, and its 64-bit overflow is not modelled; the total is an unbounded integer.
- A nil `Config` pointer: the model always has a configuration.
- The exclusion helpers that `main_test.go` calls: `main.go` does not define them.
- The tests (goroutines, pipes, changing directory).
