// The indentation rules of Formatter#format_source (main.rb:40-68) as
// functions over the list of lines, and what they guarantee.

module Indentation {
  import opened RubyString
  import opened Patterns

  /** The depth a line is rendered at when the depth carried over from the
      previous line is `d`: one less for a closer or mid-block line, but
      never below zero (main.rb:49-50). */
  function LineDepth(d: nat, line: string): nat {
    if IsCloser(Strip(line)) && d != 0 then d - 1 else d
  }

  /** The depth carried to the line after `line`: the rendering depth, plus
      one when the unstripped line matches the opener pattern
      (main.rb:64-65). */
  function NextDepth(d: nat, line: string): nat {
    LineDepth(d, line) + (if IsOpener(line) then 1 else 0)
  }

  /** `current_indent` once every line of `lines` has been processed,
      starting from 0 (main.rb:44). */
  function DepthAfter(lines: seq<string>): nat {
    if lines == [] then 0
    else NextDepth(DepthAfter(lines[..|lines| - 1]), lines[|lines| - 1])
  }

  /** The depth line `k` of `lines` is rendered at. */
  function RenderDepth(lines: seq<string>, k: nat): nat
    requires k < |lines|
  {
    LineDepth(DepthAfter(lines[..k]), lines[k])
  }

  /** `indent_unit * current_indent + line.strip` (main.rb:54). */
  function RenderLine(unit: string, d: nat, line: string): string {
    Repeat(unit, d) + Strip(line)
  }

  /** The `formatted_lines` buffer after every line of `lines` has been
      appended (main.rb:42, 61). */
  function Formatted(unit: string, lines: seq<string>): (out: seq<string>)
    ensures |out| == |lines|
  {
    if lines == [] then []
    else
      var init := lines[..|lines| - 1];
      var line := lines[|lines| - 1];
      Formatted(unit, init) + [RenderLine(unit, LineDepth(DepthAfter(init), line), line)]
  }

  /** Processing line i extends the buffer by that line's rendering and
      moves the depth on by NextDepth. */
  lemma FormattedStep(unit: string, lines: seq<string>, i: nat)
    requires i < |lines|
    ensures Formatted(unit, lines[..i + 1]) ==
      Formatted(unit, lines[..i]) + [RenderLine(unit, LineDepth(DepthAfter(lines[..i]), lines[i]), lines[i])]
    ensures DepthAfter(lines[..i + 1]) == NextDepth(DepthAfter(lines[..i]), lines[i])
  {
    assert lines[..i + 1][..i] == lines[..i];
  }

  /** The number of lines that match the opener pattern. */
  function OpenerCount(lines: seq<string>): (n: nat)
    ensures n <= |lines|
  {
    if lines == [] then 0
    else OpenerCount(lines[..|lines| - 1]) + (if IsOpener(lines[|lines| - 1]) then 1 else 0)
  }

  /** The buffer holds one line per input line, in input order: line k is
      line k of the input, stripped and indented by its depth. */
  lemma {:induction false} FormattedLines(unit: string, lines: seq<string>)
    ensures |Formatted(unit, lines)| == |lines|
    ensures forall k :: 0 <= k < |lines| ==>
      Formatted(unit, lines)[k] == RenderLine(unit, RenderDepth(lines, k), lines[k])
    decreases |lines|
  {
    if lines != [] {
      var n := |lines| - 1;
      var init := lines[..n];
      FormattedLines(unit, init);
      var f, g := Formatted(unit, lines), Formatted(unit, init);
      assert f == g + [RenderLine(unit, LineDepth(DepthAfter(init), lines[n]), lines[n])];
      forall k | 0 <= k < |lines|
        ensures f[k] == RenderLine(unit, RenderDepth(lines, k), lines[k])
      {
        if k < n {
          assert init[..k] == lines[..k];
          assert f[k] == g[k];
        } else {
          assert init == lines[..k];
        }
      }
    }
  }

  /** Line k of the buffer: the indent unit repeated once per level of the
      line's depth, then the stripped input line. */
  lemma FormattedLine(unit: string, lines: seq<string>, k: nat)
    requires k < |lines|
    ensures Formatted(unit, lines)[k] == Repeat(unit, RenderDepth(lines, k)) + Strip(lines[k])
  {
    FormattedLines(unit, lines);
  }

  /** With an indent unit of `w` spaces a rendered line is `w * d` spaces
      followed by the stripped line: taking that prefix off gives the
      stripped line back, stripping the rendered line gives the same text as
      stripping the original, and the line shows exactly `w * d` leading
      blanks (a whitespace-only line comes out as just those blanks). */
  lemma RenderedLineContent(w: nat, d: nat, line: string)
    ensures var r := RenderLine(Spaces(w), d, line);
      |r| == w * d + |Strip(line)| &&
      (forall i :: 0 <= i < w * d ==> r[i] == ' ') &&
      r[w * d..] == Strip(line) &&
      Strip(r) == Strip(line) &&
      LeadingBlanks(r) == w * d &&
      (Strip(line) == [] ==> r == Spaces(w * d))
  {
    var n := w * d;
    var t := Strip(line);
    RepeatSpaces(w, d);
    var r := Spaces(n) + t;
    assert RenderLine(Spaces(w), d, line) == r;
    assert r[n..] == t;
    SpacesAreBlank(n);
    StripIgnoresLeadingBlanks(Spaces(n), t);
    StripIdempotent(line);
    StripRemovesOnlyOuterBlanks(line);
    LeadingBlanksOfIndented(n, t);
    if t == [] {
      assert r == Spaces(n);
    }
  }

  /** n blanks in front of text that is empty or starts with a non-blank
      are exactly its leading blanks. */
  lemma {:induction false} LeadingBlanksOfIndented(n: nat, t: string)
    requires t == [] || !IsStripSpace(t[0])
    ensures LeadingBlanks(Spaces(n) + t) == n
  {
    if n > 0 {
      assert (Spaces(n) + t)[1..] == Spaces(n - 1) + t;
      LeadingBlanksOfIndented(n - 1, t);
    } else {
      assert Spaces(n) + t == t;
    }
  }

  /** Formatting never changes a line's content: output line k and input
      line k strip to the same text, and the output line's indentation is
      exactly `w` blanks per level of its rendering depth; a whitespace-only
      input line comes out as just those blanks. */
  lemma OutputKeepsContent(w: nat, lines: seq<string>, k: nat)
    requires k < |lines|
    ensures Strip(Formatted(Spaces(w), lines)[k]) == Strip(lines[k])
    ensures LeadingBlanks(Formatted(Spaces(w), lines)[k]) == w * RenderDepth(lines, k)
    ensures Strip(lines[k]) == [] ==> Formatted(Spaces(w), lines)[k] == Spaces(w * RenderDepth(lines, k))
  {
    var d := RenderDepth(lines, k);
    assert Formatted(Spaces(w), lines)[k] == RenderLine(Spaces(w), d, lines[k]) by {
      FormattedLine(Spaces(w), lines, k);
    }
    RenderedLineContent(w, d, lines[k]);
  }

  /** A line whose stripped text is `end`, `else` or `ensure`, or starts with
      `elsif`, `rescue` or `when`, is rendered one level shallower than the
      depth carried over from the line before, or at depth 0 when that depth
      is already 0. Any other line is rendered at the carried-over depth. */
  lemma CloserRendering(unit: string, lines: seq<string>, k: nat)
    requires k < |lines|
    ensures IsCloser(Strip(lines[k])) ==>
      var d := DepthAfter(lines[..k]);
      Formatted(unit, lines)[k] == Repeat(unit, if d == 0 then 0 else d - 1) + Strip(lines[k])
    ensures !IsCloser(Strip(lines[k])) ==>
      Formatted(unit, lines)[k] == Repeat(unit, DepthAfter(lines[..k])) + Strip(lines[k])
  {
    FormattedLine(unit, lines, k);
  }

  /** After a line that matches the opener pattern the depth is one more than
      the depth that line was rendered at, however many keywords it holds;
      after a line that matches neither pattern the depth is unchanged. */
  lemma OpenerRaisesDepth(lines: seq<string>, k: nat)
    requires k < |lines|
    ensures IsOpener(lines[k]) ==> DepthAfter(lines[..k + 1]) == RenderDepth(lines, k) + 1
    ensures !IsOpener(lines[k]) ==> DepthAfter(lines[..k + 1]) == RenderDepth(lines, k)
    ensures !IsOpener(lines[k]) && !IsCloser(Strip(lines[k])) ==>
      DepthAfter(lines[..k + 1]) == DepthAfter(lines[..k])
  {
    assert lines[..k + 1][..k] == lines[..k];
  }

  /** From one line to the next the depth moves by at most one in each
      direction. */
  lemma DepthStep(d: nat, line: string)
    ensures var m := if d == 0 then 0 else d - 1;
      NextDepth(d, line) in {m, m + 1, d, d + 1}
    ensures IsCloser(Strip(line)) && d != 0 ==> NextDepth(d, line) <= d
    ensures !IsCloser(Strip(line)) ==> NextDepth(d, line) >= d
  {
  }

  /** The depth never exceeds the number of opener lines seen so far. */
  lemma {:induction false} DepthAtMostOpeners(lines: seq<string>)
    ensures DepthAfter(lines) <= OpenerCount(lines)
    decreases |lines|
  {
    if lines != [] {
      DepthAtMostOpeners(lines[..|lines| - 1]);
    }
  }

  /** The depth line k is rendered at is at most the number of opener lines
      before it. */
  lemma RenderDepthAtMostOpeners(lines: seq<string>, k: nat)
    requires k < |lines|
    ensures RenderDepth(lines, k) <= OpenerCount(lines[..k])
  {
    DepthAtMostOpeners(lines[..k]);
  }
}
