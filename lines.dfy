/** How a file's text is cut into lines by the default split function of
    Go's `bufio.Scanner`: pieces are separated by '\n', one trailing '\r'
    is dropped from each piece, and a final non-empty piece without a
    terminating '\n' is still a line. */
module Lines {

  /** Position of the first '\n' in `s`, or `|s|` when there is none. */
  function NewlineIndex(s: string): (i: nat)
    ensures i <= |s|
    ensures i < |s| ==> s[i] == '\n'
    ensures forall j :: 0 <= j < i ==> s[j] != '\n'
  {
    if s == [] || s[0] == '\n' then 0 else 1 + NewlineIndex(s[1..])
  }

  /** A piece with at most one trailing carriage return removed. */
  function DropCR(piece: string): (line: string)
    ensures line <= piece
  {
    if |piece| > 0 && piece[|piece| - 1] == '\r' then piece[..|piece| - 1] else piece
  }

  /** The lines the scanner delivers for `text`, in order. */
  function SplitLines(text: string): (lines: seq<string>)
    ensures forall k :: 0 <= k < |lines| ==> '\n' !in lines[k]
    decreases |text|
  {
    if text == [] then []
    else
      var i := NewlineIndex(text);
      if i == |text| then [DropCR(text)]
      else [DropCR(text[..i])] + SplitLines(text[i + 1..])
  }

  /** Whether `text` ends in a piece that no '\n' terminates. */
  predicate Unterminated(text: string) {
    text != [] && text[|text| - 1] != '\n'
  }

  /** The scanner yields one line per '\n' plus one for an unterminated
      last piece; in particular an empty file has no lines. */
  lemma {:induction false} LineCount(text: string)
    ensures |SplitLines(text)| == multiset(text)['\n'] + (if Unterminated(text) then 1 else 0)
    decreases |text|
  {
    if text != [] {
      var i := NewlineIndex(text);
      if i == |text| {
        NoNewlineBefore(text);
        assert text[..i] == text;
        assert |SplitLines(text)| == 1;
      } else {
        var rest := text[i + 1..];
        assert |SplitLines(text)| == 1 + |SplitLines(rest)|;
        NewlinesAfterFirst(text);
        LineCount(rest);
        assert Unterminated(text) <==> Unterminated(rest) by {
          if rest != [] {
            assert text[|text| - 1] == rest[|rest| - 1];
          }
        }
      }
    }
  }

  lemma NoNewlineBefore(text: string)
    ensures multiset(text[..NewlineIndex(text)])['\n'] == 0
  {
    var head := text[..NewlineIndex(text)];
    assert forall j :: 0 <= j < |head| ==> head[j] != '\n';
    assert '\n' !in head;
  }

  lemma NewlinesAfterFirst(text: string)
    requires NewlineIndex(text) < |text|
    ensures multiset(text)['\n'] == multiset(text[NewlineIndex(text) + 1..])['\n'] + 1
  {
    var i := NewlineIndex(text);
    NoNewlineBefore(text);
    assert text == text[..i] + [text[i]] + text[i + 1..];
    assert multiset(text) == multiset(text[..i]) + multiset{'\n'} + multiset(text[i + 1..]);
  }

  /** The text of `lines`, each terminated by '\n'. */
  function JoinLines(lines: seq<string>): string {
    if lines == [] then [] else lines[0] + "\n" + JoinLines(lines[1..])
  }

  /** A line the scanner can deliver unchanged: no '\n' inside and no
      trailing '\r' for the split function to drop. */
  predicate PlainLine(line: string) {
    '\n' !in line && !(|line| > 0 && line[|line| - 1] == '\r')
  }

  /** Splitting undoes joining for plain lines. */
  lemma {:induction false} SplitJoin(lines: seq<string>)
    requires forall k :: 0 <= k < |lines| ==> PlainLine(lines[k])
    ensures SplitLines(JoinLines(lines)) == lines
  {
    if lines != [] {
      var l, rest := lines[0], JoinLines(lines[1..]);
      var text := JoinLines(lines);
      assert text == l + "\n" + rest;
      assert PlainLine(l);
      var i := NewlineIndex(text);
      assert text[|l|] == '\n';
      assert i == |l|;
      assert text[..i] == l;
      assert text[i + 1..] == rest;
      assert DropCR(l) == l;
      SplitJoin(lines[1..]);
    }
  }
}
