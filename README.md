# Ruby formatter: the line-indentation engine

This project models `RubyFormatter::Formatter` from `main.rb`: the option
defaults set by `Formatter.new` and `format_source`, the method that
re-indents Ruby source text line by line. `format_source` splits the text
on `"\n"` and keeps one counter, `current_indent`. For each line:

1. If the stripped line is `end`, `else` or `ensure`, or starts with
   `elsif`, `rescue` or `when`, the counter drops by one, never below zero.
2. The line is emitted as the indent unit (`indent_size` spaces) repeated
   `current_indent` times, followed by the stripped line.
3. If the raw line contains one of `if unless def class module begin case
   while until for do` as a word, the counter rises by one. "As a word"
   means the keyword is preceded by a blank or the start of the line, and
   followed by a blank, `(` or the end of the line.

The modules are:

- `RubyString` (`ruby_string.dfy`) models the core-library operations the
  method relies on. These are `String#strip` (NUL, `\t`, `\n`, `\v`, `\f`,
  `\r` and space at both ends), `String#split("\n")` (trailing empty fields
  dropped) and `String#*`.
- `Patterns` (`patterns.dfy`) writes the two regular expressions out as
  predicates. `IsCloser` covers the pattern of main.rb:49. `IsOpener` is the
  leftmost-match scan of the pattern of main.rb:64. It is proved equal to the
  existential reading of that regular expression.
- `Indentation` (`indentation.dfy`) states the rules as functions over the
  list of lines:
  - `DepthAfter` is the counter after a prefix of the lines.
  - `RenderDepth` is the depth one line is rendered at.
  - `Formatted` is the output buffer.

  The module also proves what those rules guarantee.
- `RubyFormatter` (`formatter.dfy`) holds the class `Formatter`:
  - its constructor, with the option defaults;
  - the indent unit;
  - `FormatSource`, whose loop over the lines is proved to build exactly
    `Formatted(...)`.

The model follows the code as written:

- Mid-block keywords (`else`, `elsif`, `rescue`, `when`, `ensure`) only
  lower the depth; nothing raises it again after them.
- A trailing modifier such as `return 1 if x` raises the depth, because
  ` if` followed by a blank matches the opener pattern.
- A single-line `if x then y end` raises the depth, and nothing lowers it
  again: its stripped text is not a closer.

The code does not re-open a level after a mid-block keyword. It does not
tell a trailing modifier apart from a block keyword. It is not idempotent:
a line `"\0if x"` is no opener (NUL is not `\s`), but once formatted it
reads `if x`, which is one. None of these is claimed here.

The code is wrong in two places. The model records each defect with an
as-written member and then uses the corrected behaviour (see "Findings").

## Model

| member | source | states |
|---|---|---|
| `RubyFormatter.Formatter.constructor` | main.rb:26-32 | each option not given takes its default: indent size 2, maximum line length 80, trailing comma false; a given option overrides its default |
| `RubyFormatter.Formatter.InstanceVariable` | main.rb:27-45 | definition: reading an instance variable of the formatter by name; only `@option`, assigned at main.rb:27, holds the options, and any other name reads nil |
| `RubyFormatter.Formatter.IndentUnitFrom` | main.rb:45 | definition: `" " * ivar[:indent_size]` for a named instance variable: NoMethodError when it is nil, ArgumentError for a negative size, otherwise that many blanks |
| `RubyFormatter.Formatter.IndentUnitAsWritten` | main.rb:45 | reading `@options`, which is never assigned, makes computing the indent unit raise NoMethodError for every formatter |
| `RubyFormatter.Formatter.IndentUnit` | main.rb:45 | the indent unit read from `@option` exists exactly when the indent size is non-negative, and is then that many blanks; a negative size raises ArgumentError |
| `RubyFormatter.Formatter.FormatSource` | main.rb:40-68 | a negative indent size raises ArgumentError; otherwise the result is the buffer `Formatted(" " * indent_size, source.split("\n"))`, which depends on the options only through the indent size |
| `RubyFormatter.Formatter.FormatLines` | main.rb:47-67 | the loop with its counter and its buffer appends, line by line, exactly the lines of `Formatted(unit, lines)`; the counter after each line is `DepthAfter` of the lines seen so far |
| `RubyFormatter.Formatter.FormatSourceAsWritten` | main.rb:47 | as written the method returns the value of `lines.each`, which is the unformatted `source.split("\n")` |
| `RubyFormatter.ReturnValueDiffers` | main.rb:47 | the as-written return value is not the formatted buffer: when the first line starts with a blank, the buffer holds it stripped, so the two differ |
| `RubyFormatter.SameIndentSameOutput` | main.rb:57-59 | two formatters with the same indent size produce the same result for every source, whatever their maximum line length and trailing-comma setting |
| `Indentation.LineDepth` | main.rb:49-50 | definition: the depth a line renders at is one less than the carried depth for a closer line, unless that depth is already zero, and the carried depth otherwise |
| `Indentation.NextDepth` | main.rb:64-65 | definition: the depth carried to the next line is the rendering depth plus one when the unstripped line is an opener |
| `Indentation.Formatted` | main.rb:42-61 | the buffer after all lines, built from an empty buffer by appending each line rendered at its depth; it has one line per input line |
| `Indentation.DepthAfter` | main.rb:44-65 | definition: `current_indent` after a prefix of the lines, starting from 0 (main.rb:44) and moved on by `NextDepth` for each line (main.rb:50, 65) |
| `Indentation.RenderDepth` | main.rb:49-54 | definition: the depth line k is rendered at, `LineDepth` of the counter after the lines before it |
| `Indentation.RenderLine` | main.rb:54 | definition: `indent_unit * current_indent + line.strip` |
| `Indentation.FormattedStep` | main.rb:47-67 | handling line i appends that line rendered at `LineDepth(depth, line)` to the buffer and moves the counter to `NextDepth(depth, line)` |
| `Indentation.FormattedLines` | main.rb:47-61 | the buffer has exactly one line per input line, in input order, and line k is input line k rendered at its own depth |
| `Indentation.FormattedLine` | main.rb:54 | output line k is the indent unit repeated `RenderDepth(lines, k)` times followed by the stripped input line k |
| `Indentation.RenderedLineContent` | main.rb:45-54 | with a unit of w blanks, a line rendered at depth d is `w*d` blanks followed by the stripped line; removing that prefix gives the stripped line back; stripping the rendered line gives the same text as stripping the original; the rendered line has exactly `w*d` leading blanks, and a whitespace-only line renders as just those `w*d` blanks |
| `Indentation.LeadingBlanksOfIndented` | main.rb:54 | n blanks in front of text that is empty or starts with a non-blank give exactly n leading blanks |
| `Indentation.OutputKeepsContent` | main.rb:45-54 | every output line strips to the same text as its input line (content is never altered), and its indentation is exactly `indent_size * depth` blanks; a whitespace-only input line comes out as exactly `indent_size * depth` blanks (trailing spaces on a blank line) |
| `Indentation.CloserRendering` | main.rb:49-54 | a line whose stripped text is a closer or mid-block keyword renders at `max(d-1, 0)`, where d is the depth after the previous line; any other line renders at d |
| `Indentation.OpenerRaisesDepth` | main.rb:49-65 | after a line matching the opener pattern, the depth is exactly one more than the line's rendering depth, however many keywords it holds; after a line matching neither pattern, the depth is unchanged |
| `Indentation.DepthStep` | main.rb:49-66 | from one line to the next the depth lands in `{max(d-1,0), max(d-1,0)+1, d, d+1}`; a closer at non-zero depth never raises it; a non-closer never lowers it |
| `Indentation.DepthAtMostOpeners` | main.rb:44-65 | the counter never exceeds the number of opener lines seen so far |
| `Indentation.RenderDepthAtMostOpeners` | main.rb:44-65 | the depth line k is rendered at is at most the number of opener lines before it |
| `Patterns.IsRegexSpace` | main.rb:64 | definition: the regular-expression class `\s` (space, `\t`, `\r`, `\n`, `\f`, `\v`; not NUL) |
| `Patterns.WordAt` | main.rb:64 | definition: an opener keyword stands at a position and is followed by the end of the line, a `\s` character or `(` |
| `Patterns.OpenerAt` | main.rb:64 | definition: the opener pattern matches with its keyword at a position: the position is the start of the line or follows a `\s` character, and one of the eleven keywords satisfies `WordAt` there |
| `Patterns.MatchesOpener` | main.rb:64 | definition: the regular-expression meaning of the opener pattern, a match at some position of the line; the reference `OpenerPositionIsLeftmostMatch` proves the scan against |
| `Patterns.IsCloser` | main.rb:49 | definition: the closer pattern on a line with no `"\n"` (where its anchors are the two ends of the line): the text is `end`, `else` or `ensure`, or begins with `elsif`, `rescue` or `when` |
| `Patterns.IsOpener` | main.rb:64 | definition: `line =~ opener` is non-nil, computed by the leftmost-match scan `OpenerPosition` |
| `Patterns.KeywordFromFinds` | main.rb:64 | the keyword scan succeeds exactly when one of the remaining alternatives of the keyword group matches at the position |
| `Patterns.OpenerFromFinds` | main.rb:64 | the position scan returns a position where the pattern matches, and no position before it (from the starting point) matches |
| `Patterns.OpenerPositionIsLeftmostMatch` | main.rb:64 | the scan finds a position exactly when `line =~ opener` is non-nil (the pattern matches somewhere), and the position it finds is the leftmost keyword position at which the pattern matches; `=~` itself returns the start of the match, one less when the match begins with the blank before the keyword, but main.rb:64 only tests it for nil |
| `Patterns.KeywordAsWordOpens` | main.rb:64 | an opener keyword standing as a word, anywhere in the line, makes the line an opener; so a trailing modifier such as `return 1 if x` raises the depth |
| `RubyString.Strip` | main.rb:49-54 | definition: String#strip as rstrip after lstrip, both over NUL, `\t`, `\n`, `\v`, `\f`, `\r` and space |
| `RubyString.Repeat` | main.rb:54 | definition: String#* repeats its receiver n times |
| `RubyString.Split` | main.rb:41 | definition: the `"\n"`-separated fields of the text with the trailing empty ones dropped |
| `RubyString.LeadingBlanks` | main.rb:49 | the count of leading strip-whitespace characters: all of them are whitespace and the next character is not |
| `RubyString.TrailingBlanks` | main.rb:49 | the count of trailing strip-whitespace characters: all of them are whitespace and the character before them is not |
| `RubyString.LStripDropsLeadingBlanks` | main.rb:49 | lstrip removes exactly the leading whitespace |
| `RubyString.RStripDropsTrailingBlanks` | main.rb:49 | rstrip removes exactly the trailing whitespace |
| `RubyString.StripRemovesOnlyOuterBlanks` | main.rb:54 | the input is whitespace, then the stripped text, then whitespace; the stripped text neither starts nor ends with whitespace |
| `RubyString.StripOfTrimmed` | main.rb:54 | a string with no whitespace at either end is its own strip |
| `RubyString.StripIdempotent` | main.rb:54 | stripping twice equals stripping once |
| `RubyString.StripIgnoresLeadingBlanks` | main.rb:54 | whitespace put in front of a string does not change its strip |
| `RubyString.Spaces` | main.rb:45 | `" " * n` has length n and holds only blanks |
| `RubyString.SpacesIsRepeat` | main.rb:45 | `Spaces(n)` is String#* applied to `" "`: it equals `Repeat(" ", n)` for every n |
| `RubyString.RepeatSpaces` | main.rb:54 | the unit of w blanks repeated d times is `w*d` blanks |
| `RubyString.SplitJoin` | main.rb:41 | `split("\n")` is undone by `join("\n")` plus the trailing newlines it drops; its lines hold no `"\n"`, and the last one is not empty |

## Left out

- `Parser` (main.rb:6-23) is not part of this model. It wraps Ruby's own
  parser and lexer (`Ripper`), whose behaviour is not visible here.
- `Formatter#format` (main.rb:34-38) is not part of this model. It passes
  the parser's Hash to `format_source`, which would call `split` on it and
  fail; the model takes `format_source`'s string input directly.
- The command-line interface (main.rb:71-161) and the script entry point
  (main.rb:164-167) are not part of this model. They are option parsing,
  file reading and writing, printing and process exit.
- Long-line wrapping and trailing-comma handling are not modelled. The code
  has only an empty placeholder for them (main.rb:57-59) and never reads
  `trailing_comma`. The model keeps the empty branch, and
  `SameIndentSameOutput` states that it has no effect.
- Options are taken as integers and booleans. The model does not cover
  option values of other Ruby types, or keys `merge` adds beyond the three
  known ones (those are ignored). A string or nil indent size makes
  `String#*` raise TypeError. A float indent size is truncated by
  `String#*` and works. A nil or string maximum line length makes the
  comparison at main.rb:57 raise ArgumentError on the first line.
- The regular-expression anchors `^` and `$` also match around a `"\n"`
  inside a string. Lines produced by `split("\n")` never contain one
  (`SplitJoin`), so the predicates read `^` and `$` as the ends of the line.
- `String#strip` is modelled as current Ruby (3.x) defines it: NUL counts
  as whitespace at both ends. Older Ruby versions' `lstrip` kept a leading
  NUL; on those the `"\0if x"` example above would not apply.
- Ruby strings are sequences of characters here. Encodings, invalid byte
  sequences and frozen strings are not modelled.

## Findings

| source | as written | input that shows it | evidently intended | confidence | as-written member | corrected member |
|---|---|---|---|---|---|---|
| main.rb:45-57 | `" " * @options[:indent_size]` (main.rb:45) and `@options[:max_line_length]` (main.rb:57) read `@options`, but initialize (main.rb:27) assigns `@option`; indexing nil raises NoMethodError, at line 45 on every call and at line 57 on the first line if line 45 alone were corrected | any call of `format_source`, e.g. `Formatter.new.format_source("x")` | both reads take the options from `@option`, giving `indent_size` blanks and the configured maximum line length; the model corrects both | high (not executed) | `RubyFormatter.Formatter.IndentUnitAsWritten` | `RubyFormatter.Formatter.IndentUnit` |
| main.rb:47 | the last expression of `format_source` is `lines.each do ... end`, whose value is `lines`, so the method returns the unformatted lines and drops `formatted_lines` | `" x"`: the result is `[" x"]`, while the buffer holds `["x"]` (`ReturnValueDiffers`) | return the formatted text: the callers (main.rb:140, 148, 154) compare the result with the source string, write it to the file and print it, which points to `formatted_lines.join("\n")`; the model returns the buffer `formatted_lines`, from which that text is `Join` of the result | high (not executed) | `RubyFormatter.Formatter.FormatSourceAsWritten` | `RubyFormatter.Formatter.FormatSource` |
