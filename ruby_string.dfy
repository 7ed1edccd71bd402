// The three core-library String operations that Formatter#format_source
// relies on: String#strip, String#split("\n") and String#* (repetition).

module RubyString {

  /** A value that may be absent: Ruby's nil or a value. */
  datatype Option<T> = None | Some(value: T)

  /** The characters String#strip removes from both ends: NUL, "\t", "\n",
      "\v", "\f", "\r" and the space. */
  predicate IsStripSpace(c: char) {
    c == '\0' || c == '\t' || c == '\n' || c == '\U{0B}' || c == '\U{0C}' || c == '\r' || c == ' '
  }

  predicate AllStripSpace(s: string) {
    forall i :: 0 <= i < |s| ==> IsStripSpace(s[i])
  }

  /** Number of strip-space characters at the start of `s`. */
  function LeadingBlanks(s: string): (n: nat)
    ensures n <= |s|
    ensures forall i :: 0 <= i < n ==> IsStripSpace(s[i])
    ensures n < |s| ==> !IsStripSpace(s[n])
  {
    if |s| > 0 && IsStripSpace(s[0]) then LeadingBlanks(s[1..]) + 1 else 0
  }

  /** Number of strip-space characters at the end of `s`. */
  function TrailingBlanks(s: string): (n: nat)
    ensures n <= |s|
    ensures forall i :: |s| - n <= i < |s| ==> IsStripSpace(s[i])
    ensures n < |s| ==> !IsStripSpace(s[|s| - 1 - n])
  {
    if |s| > 0 && IsStripSpace(s[|s| - 1]) then TrailingBlanks(s[..|s| - 1]) + 1 else 0
  }

  /** String#lstrip: `s` without its leading strip-space characters. */
  function LStrip(s: string): string {
    if |s| > 0 && IsStripSpace(s[0]) then LStrip(s[1..]) else s
  }

  /** String#rstrip: `s` without its trailing strip-space characters. */
  function RStrip(s: string): string {
    if |s| > 0 && IsStripSpace(s[|s| - 1]) then RStrip(s[..|s| - 1]) else s
  }

  /** String#strip: `s` without its leading and trailing strip-space
      characters. */
  function Strip(s: string): string {
    RStrip(LStrip(s))
  }

  lemma {:induction false} LStripDropsLeadingBlanks(s: string)
    ensures LStrip(s) == s[LeadingBlanks(s)..]
  {
    if |s| > 0 && IsStripSpace(s[0]) {
      LStripDropsLeadingBlanks(s[1..]);
    }
  }

  lemma {:induction false} RStripDropsTrailingBlanks(s: string)
    ensures RStrip(s) == s[..|s| - TrailingBlanks(s)]
  {
    if |s| > 0 && IsStripSpace(s[|s| - 1]) {
      RStripDropsTrailingBlanks(s[..|s| - 1]);
    }
  }

  /** Strip takes off whitespace at both ends and nothing else: the input is
      some whitespace, then the result, then some whitespace, and the result
      neither starts nor ends with whitespace. */
  lemma StripRemovesOnlyOuterBlanks(s: string)
    ensures var r := Strip(s);
      var a := LeadingBlanks(s);
      a + |r| <= |s| && s[a..a + |r|] == r &&
      AllStripSpace(s[..a]) && AllStripSpace(s[a + |r|..]) &&
      (r != [] ==> !IsStripSpace(r[0]) && !IsStripSpace(r[|r| - 1]))
  {
    var a := LeadingBlanks(s);
    var t := s[a..];
    LStripDropsLeadingBlanks(s);
    RStripDropsTrailingBlanks(t);
    var b := TrailingBlanks(t);
    var r := Strip(s);
    assert r == t[..|t| - b];
    assert s[a + |r|..] == t[|t| - b..];
    if r != [] {
      assert r[0] == s[a];
      assert r[|r| - 1] == t[|t| - 1 - b];
    }
  }

  /** A string with no whitespace at either end is its own strip, so Strip
      is idempotent. */
  lemma {:induction false} StripOfTrimmed(s: string)
    requires s == [] || (!IsStripSpace(s[0]) && !IsStripSpace(s[|s| - 1]))
    ensures Strip(s) == s
  {
    if s != [] {
      assert LStrip(s) == s;
      assert RStrip(s) == s;
    }
  }

  lemma StripIdempotent(s: string)
    ensures Strip(Strip(s)) == Strip(s)
  {
    StripRemovesOnlyOuterBlanks(s);
    StripOfTrimmed(Strip(s));
  }

  /** Leading whitespace does not change what Strip returns. */
  lemma {:induction false} StripIgnoresLeadingBlanks(w: string, s: string)
    requires AllStripSpace(w)
    ensures Strip(w + s) == Strip(s)
    decreases |w|
  {
    if w != [] {
      assert (w + s)[1..] == w[1..] + s;
      assert LStrip(w + s) == LStrip(w[1..] + s);
      StripIgnoresLeadingBlanks(w[1..], s);
    } else {
      assert w + s == s;
    }
  }

  /** String#* : `s` repeated `n` times. */
  function Repeat(s: string, n: nat): (r: string)
  {
    if n == 0 then [] else s + Repeat(s, n - 1)
  }

  /** `n` space characters: `" " * n`. */
  function Spaces(n: nat): (r: string)
    ensures |r| == n
    ensures forall i :: 0 <= i < n ==> r[i] == ' '
  {
    if n == 0 then [] else [' '] + Spaces(n - 1)
  }

  /** Spaces is String#* on the one-blank string: `" " * n`. */
  lemma {:induction false} SpacesIsRepeat(n: nat)
    ensures Spaces(n) == Repeat(" ", n)
  {
    if n > 0 {
      SpacesIsRepeat(n - 1);
    }
  }

  lemma {:induction false} SpacesAdd(m: nat, n: nat)
    ensures Spaces(m + n) == Spaces(m) + Spaces(n)
  {
    if m > 0 {
      SpacesAdd(m - 1, n);
    }
  }

  /** `(" " * w) * d == " " * (w * d)`: repeating a unit of w spaces d times
      gives w * d spaces. */
  lemma {:induction false} RepeatSpaces(w: nat, d: nat)
    ensures Repeat(Spaces(w), d) == Spaces(w * d)
  {
    if d > 0 {
      var m := w * (d - 1);
      assert w + m == w * d;
      RepeatSpaces(w, d - 1);
      SpacesAdd(w, m);
    }
  }

  lemma SpacesAreBlank(n: nat)
    ensures AllStripSpace(Spaces(n))
  {
  }

  // ---------------------------------------------------------------------
  // String#split("\n")

  /** Index of the first "\n" in `s`, or |s| if there is none. */
  function NewlineIndex(s: string): (i: nat)
    ensures i <= |s|
    ensures forall j :: 0 <= j < i ==> s[j] != '\n'
    ensures i < |s| ==> s[i] == '\n'
  {
    if |s| == 0 || s[0] == '\n' then 0 else 1 + NewlineIndex(s[1..])
  }

  /** Every field between "\n" separators, empty ones included
      (`split("\n", -1)`); there is always at least one. */
  function Fields(s: string): (f: seq<string>)
    ensures |f| >= 1
    decreases |s|
  {
    var i := NewlineIndex(s);
    if i == |s| then [s] else [s[..i]] + Fields(s[i + 1..])
  }

  /** `f` with its trailing empty strings removed. */
  function DropTrailingEmpty(f: seq<string>): (r: seq<string>)
  {
    if f != [] && f[|f| - 1] == [] then DropTrailingEmpty(f[..|f| - 1]) else f
  }

  /** String#split("\n"): the "\n"-separated fields of `s` with trailing
      empty fields dropped, as Ruby does when no limit is given. */
  function Split(s: string): (lines: seq<string>)
  {
    DropTrailingEmpty(Fields(s))
  }

  /** Array#join("\n"). */
  function Join(f: seq<string>): (s: string)
  {
    if |f| == 0 then []
    else if |f| == 1 then f[0]
    else f[0] + "\n" + Join(f[1..])
  }

  /** The number of "\n" characters at the end of `s`. */
  function TrailingNewlines(s: string): (n: nat)
    ensures n <= |s|
  {
    if |s| > 0 && s[|s| - 1] == '\n' then 1 + TrailingNewlines(s[..|s| - 1]) else 0
  }

  lemma {:induction false} FieldsHaveNoNewline(s: string)
    ensures forall k :: 0 <= k < |Fields(s)| ==> '\n' !in Fields(s)[k]
    decreases |s|
  {
    var i := NewlineIndex(s);
    if i < |s| {
      FieldsHaveNoNewline(s[i + 1..]);
      var f := Fields(s);
      forall k | 0 <= k < |f| ensures '\n' !in f[k] {
        if k > 0 {
          assert f[k] == Fields(s[i + 1..])[k - 1];
        }
      }
    }
  }

  lemma {:induction false} JoinFields(s: string)
    ensures Join(Fields(s)) == s
    decreases |s|
  {
    var i := NewlineIndex(s);
    if i < |s| {
      var head, tail := s[..i], s[i + 1..];
      assert Fields(s) == [head] + Fields(tail);
      JoinCons(head, Fields(tail));
      JoinFields(tail);
      assert s == head + "\n" + tail;
    }
  }

  lemma JoinCons(head: string, rest: seq<string>)
    requires rest != []
    ensures Join([head] + rest) == head + "\n" + Join(rest)
  {
    assert ([head] + rest)[1..] == rest;
  }

  lemma JoinSnoc(f: seq<string>, x: string)
    requires f != []
    ensures Join(f + [x]) == Join(f) + "\n" + x
    decreases |f|
  {
    if |f| > 1 {
      assert (f + [x])[1..] == f[1..] + [x];
      JoinSnoc(f[1..], x);
    }
  }

  /** Dropping trailing empty fields removes exactly the trailing "\n"s. */
  lemma {:induction false} DropTrailingEmptyJoin(f: seq<string>)
    requires f != []
    requires forall k :: 0 <= k < |f| ==> '\n' !in f[k]
    ensures Join(f) == Join(DropTrailingEmpty(f)) + Repeat("\n", TrailingNewlines(Join(f)))
    decreases |f|
  {
    var last := f[|f| - 1];
    if last == [] {
      var g := f[..|f| - 1];
      assert f == g + [last];
      if g == [] {
        assert Join(f) == [];
        assert DropTrailingEmpty(f) == DropTrailingEmpty(g) == [];
      } else {
        JoinSnoc(g, last);
        DropTrailingEmptyJoin(g);
        var j := Join(g);
        assert Join(f) == j + "\n";
        assert Join(f)[..|Join(f)| - 1] == j;
        var n := TrailingNewlines(j);
        assert TrailingNewlines(Join(f)) == n + 1;
        RepeatSnoc("\n", n);
        assert Join(f) == Join(DropTrailingEmpty(g)) + Repeat("\n", n) + "\n";
      }
    } else {
      JoinEndsWithLast(f);
      assert TrailingNewlines(Join(f)) == 0;
    }
  }

  lemma RepeatSnoc(s: string, n: nat)
    ensures Repeat(s, n + 1) == Repeat(s, n) + s
  {
    if n > 0 {
      RepeatSnoc(s, n - 1);
    }
  }

  lemma {:induction false} JoinEndsWithLast(f: seq<string>)
    requires f != [] && f[|f| - 1] != []
    ensures |Join(f)| > 0 && Join(f)[|Join(f)| - 1] == f[|f| - 1][|f[|f| - 1]| - 1]
    decreases |f|
  {
    if |f| > 1 {
      JoinEndsWithLast(f[1..]);
    }
  }

  lemma {:induction false} DropTrailingEmptyShape(f: seq<string>)
    ensures var r := DropTrailingEmpty(f);
      r <= f && (r == [] || r[|r| - 1] != [])
    decreases |f|
  {
    if f != [] && f[|f| - 1] == [] {
      DropTrailingEmptyShape(f[..|f| - 1]);
    }
  }

  /** String#split("\n") is undone by join("\n") up to the trailing newlines
      it drops; its lines contain no "\n" and the last one is not empty. */
  lemma SplitJoin(s: string)
    ensures s == Join(Split(s)) + Repeat("\n", TrailingNewlines(s))
    ensures forall k :: 0 <= k < |Split(s)| ==> '\n' !in Split(s)[k]
    ensures Split(s) == [] || Split(s)[|Split(s)| - 1] != []
  {
    JoinFields(s);
    FieldsHaveNoNewline(s);
    DropTrailingEmptyJoin(Fields(s));
    DropTrailingEmptyShape(Fields(s));
    var f := Fields(s);
    var r := Split(s);
    forall k | 0 <= k < |r| ensures '\n' !in r[k] {
      assert r[k] == f[k];
    }
  }
}
