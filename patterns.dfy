// The two regular expressions Formatter#format_source tests every line
// against (main.rb:49 and main.rb:64), written out as predicates.

module Patterns {
  import opened RubyString

  /** The regular-expression class `\s`: space, "\t", "\r", "\n", "\f", "\v". */
  predicate IsRegexSpace(c: char) {
    c == ' ' || c == '\t' || c == '\r' || c == '\n' || c == '\U{0C}' || c == '\U{0B}'
  }

  predicate StartsWith(s: string, p: string) {
    |p| <= |s| && s[..|p|] == p
  }

  /** `/^end$|^else$|^elsif.*$|^rescue.*$|^ensure$|^when.*$/` on a line that
      holds no "\n" (so `^` and `$` are its two ends): the whole text is
      `end`, `else` or `ensure`, or it begins with `elsif`, `rescue` or
      `when`. */
  predicate IsCloser(t: string) {
    t == "end" || t == "else" || t == "ensure" ||
    StartsWith(t, "elsif") || StartsWith(t, "rescue") || StartsWith(t, "when")
  }

  /** The alternatives of the middle group of the opener pattern, in order. */
  const OpenerKeywords: seq<string> :=
    ["if", "unless", "def", "class", "module", "begin", "case", "while", "until", "for", "do"]

  /** Keyword `k` stands at position `i` of `line` and is followed by the end
      of the line, a `\s` character or `(`: `k(\s|\(|$)`. ("$" also matches
      before a "\n", which `\s` covers already.) */
  predicate WordAt(line: string, i: nat, k: string) {
    i + |k| <= |line| && line[i..i + |k|] == k &&
    (i + |k| == |line| || IsRegexSpace(line[i + |k|]) || line[i + |k|] == '(')
  }

  /** `(\s|^)(if|unless|...|do)(\s|\(|$)` matches with the keyword starting at
      position `i`: the keyword is at the start of the line or right after a
      `\s` character. ("^" also matches after a "\n", which `\s` covers
      already.) */
  predicate OpenerAt(line: string, i: nat) {
    (i == 0 || (i <= |line| && IsRegexSpace(line[i - 1]))) &&
    exists j :: 0 <= j < |OpenerKeywords| && WordAt(line, i, OpenerKeywords[j])
  }

  /** The regular-expression meaning of the opener pattern: some position of
      the line holds a match. */
  ghost predicate MatchesOpener(line: string) {
    exists i :: 0 <= i <= |line| && OpenerAt(line, i)
  }

  /** Whether one of the opener keywords, from the j-th on, satisfies WordAt
      at `i`, tried in the pattern's order. */
  function KeywordFrom(line: string, i: nat, j: nat): (found: bool)
    requires j <= |OpenerKeywords|
    decreases |OpenerKeywords| - j
  {
    if j == |OpenerKeywords| then false
    else WordAt(line, i, OpenerKeywords[j]) || KeywordFrom(line, i, j + 1)
  }

  /** The scan a regular-expression engine does for the opener pattern: the
      leftmost keyword position at or after `from` where the pattern
      matches, or None. */
  function OpenerFrom(line: string, from: nat): (pos: Option<nat>)
    requires from <= |line| + 1
    decreases |line| + 1 - from
  {
    if from > |line| then None
    else if (from == 0 || IsRegexSpace(line[from - 1])) && KeywordFrom(line, from, 0) then Some(from)
    else OpenerFrom(line, from + 1)
  }

  /** The position of the leftmost keyword the opener pattern matches, or
      None exactly when `line =~ opener` is nil. This is not the value of
      `=~` itself: that is the index where the match starts, one less than
      the keyword's position when the match begins with the `\s` before
      the keyword. main.rb:64 only tests the result for nil (Ruby treats
      every index, 0 included, as true). */
  function OpenerPosition(line: string): (pos: Option<nat>) {
    OpenerFrom(line, 0)
  }

  /** The condition of main.rb:64: the unstripped line matches the opener
      pattern. */
  predicate IsOpener(line: string) {
    OpenerPosition(line).Some?
  }

  lemma {:induction false} KeywordFromFinds(line: string, i: nat, j: nat)
    requires j <= |OpenerKeywords|
    ensures KeywordFrom(line, i, j) <==>
      exists j' :: j <= j' < |OpenerKeywords| && WordAt(line, i, OpenerKeywords[j'])
    decreases |OpenerKeywords| - j
  {
    if j < |OpenerKeywords| {
      KeywordFromFinds(line, i, j + 1);
    }
  }

  lemma {:induction false} OpenerFromFinds(line: string, from: nat)
    requires from <= |line| + 1
    ensures var pos := OpenerFrom(line, from);
      (pos.Some? ==> from <= pos.value <= |line| && OpenerAt(line, pos.value)) &&
      (forall i :: from <= i <= |line| && (pos.None? || i < pos.value) ==> !OpenerAt(line, i))
    decreases |line| + 1 - from
  {
    if from <= |line| {
      KeywordFromFinds(line, from, 0);
      OpenerFromFinds(line, from + 1);
    }
  }

  /** The scan finds a position exactly when the pattern matches somewhere,
      and the position it finds is the leftmost keyword position at which
      the pattern matches. */
  lemma OpenerPositionIsLeftmostMatch(line: string)
    ensures IsOpener(line) <==> MatchesOpener(line)
    ensures var pos := OpenerPosition(line);
      pos.Some? ==> OpenerAt(line, pos.value) && forall i :: 0 <= i < pos.value ==> !OpenerAt(line, i)
  {
    OpenerFromFinds(line, 0);
  }

  /** Any opener keyword standing as a word of its own, with a blank or the
      start of the line before it and a blank, `(` or the end of the line
      after it, makes the line an opener, wherever it stands: a trailing
      modifier such as `return 1 if x` raises the depth like a block `if`. */
  lemma KeywordAsWordOpens(before: string, j: nat, after: string)
    requires j < |OpenerKeywords|
    requires before == [] || IsRegexSpace(before[|before| - 1])
    requires after == [] || IsRegexSpace(after[0]) || after[0] == '('
    ensures IsOpener(before + OpenerKeywords[j] + after)
  {
    var k := OpenerKeywords[j];
    var line := before + k + after;
    var i := |before|;
    assert line[i..i + |k|] == k;
    assert i + |k| < |line| ==> line[i + |k|] == after[0];
    assert i > 0 ==> line[i - 1] == before[|before| - 1];
    assert WordAt(line, i, k);
    assert OpenerAt(line, i);
    OpenerPositionIsLeftmostMatch(line);
  }
}
