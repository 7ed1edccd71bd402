// RubyFormatter::Formatter (main.rb:25-69): the options a formatter is
// created with, and format_source, which re-indents a source text line by
// line.

module RubyFormatter {
  import opened RubyString
  import opened Patterns
  import opened Indentation

  /** The Ruby exceptions format_source can raise. */
  datatype RubyError =
    | NoMethodError   // a method called on nil
    | ArgumentError   // `" " * n` with a negative n

  datatype Result<T> = Ok(value: T) | Err(error: RubyError) {
    predicate IsFailure() {
      Err?
    }

    function PropagateFailure<U>(): Result<U>
      requires Err?
    {
      Err(error)
    }

    function Extract(): T
      requires Ok?
    {
      value
    }
  }

  /** The options hash given to Formatter.new: None where the key is absent. */
  datatype OptionArgs = OptionArgs(indentSize: Option<int>, maxLineLength: Option<int>, trailingComma: Option<bool>)

  /** The options a formatter works with once the defaults are filled in. */
  datatype FormatOptions = FormatOptions(indentSize: int, maxLineLength: int, trailingComma: bool)

  class Formatter {
    /** The instance variable `@option`, set once by initialize. */
    const option: FormatOptions

    /** Formatter.new(options): every key not given takes its default:
        indent size 2, maximum line length 80, no trailing comma. */
    constructor (args: OptionArgs)
      ensures option.indentSize == (if args.indentSize.Some? then args.indentSize.value else 2)
      ensures option.maxLineLength == (if args.maxLineLength.Some? then args.maxLineLength.value else 80)
      ensures option.trailingComma == (args.trailingComma.Some? && args.trailingComma.value)
    {
      option := FormatOptions(
        if args.indentSize.Some? then args.indentSize.value else 2,
        if args.maxLineLength.Some? then args.maxLineLength.value else 80,
        if args.trailingComma.Some? then args.trailingComma.value else false);
    }

    /** The formatter's instance variables by name. initialize assigns only
        `@option`; reading any other instance variable gives nil (None). */
    function InstanceVariable(name: string): (v: Option<FormatOptions>)
    {
      if name == "@option" then Some(option) else None
    }

    /** `" " * <ivar>[:indent_size]`: indexing nil raises NoMethodError, and
        repeating a string a negative number of times raises ArgumentError. */
    function IndentUnitFrom(ivar: string): (r: Result<string>)
    {
      match InstanceVariable(ivar)
      case None => Err(NoMethodError)
      case Some(o) => if o.indentSize < 0 then Err(ArgumentError) else Ok(Spaces(o.indentSize))
    }

    /** The indent unit as main.rb:45 computes it, from `@options`, which no
        code ever assigns: every formatter raises NoMethodError here. */
    function IndentUnitAsWritten(): (r: Result<string>)
      ensures r == Err(NoMethodError)
    {
      IndentUnitFrom("@options")
    }

    /** The indent unit read from `@option`, where initialize stored the
        options: `indentSize` spaces, or ArgumentError for a negative size. */
    function IndentUnit(): (r: Result<string>)
      ensures r.Ok? <==> option.indentSize >= 0
      ensures r.Ok? ==> |r.value| == option.indentSize && AllStripSpace(r.value)
      ensures r.Ok? ==> r.value == Spaces(option.indentSize)
      ensures r.Err? ==> r.error == ArgumentError
    {
      SpacesAreBlank(if option.indentSize < 0 then 0 else option.indentSize);
      IndentUnitFrom("@option")
    }

    /** format_source(source): splits the text into lines and renders each
        one at its depth; the result is the `formatted_lines` buffer. The
        output depends on the options only through the indent size. */
    method FormatSource(source: string) returns (r: Result<seq<string>>)
      ensures option.indentSize < 0 ==> r == Err(ArgumentError)
      ensures option.indentSize >= 0 ==> r == Ok(Formatted(Spaces(option.indentSize), Split(source)))
    {
      var lines := Split(source);
      var unit :- IndentUnit();
      var formattedLines := FormatLines(lines, unit);
      r := Ok(formattedLines);
    }

    /** The `lines.each` block of format_source: one pass over the lines that
        keeps the depth counter `current_indent` (a nat, so it never goes
        below zero) and appends every rendered line to `formatted_lines`.
        The maximum line length is read from `@option`; main.rb:57 reads
        it from the unassigned `@options`, like main.rb:45. */
    method FormatLines(lines: seq<string>, unit: string) returns (formattedLines: seq<string>)
      ensures formattedLines == Formatted(unit, lines)
    {
      formattedLines := [];
      var currentIndent: nat := 0;
      var i := 0;
      while i < |lines|
        invariant i <= |lines|
        invariant currentIndent == DepthAfter(lines[..i])
        invariant formattedLines == Formatted(unit, lines[..i])
      {
        var line := lines[i];
        FormattedStep(unit, lines, i);
        if IsCloser(Strip(line)) {
          if currentIndent != 0 {
            currentIndent := currentIndent - 1;
          }
        }
        var formattedLine := Repeat(unit, currentIndent) + Strip(line);
        if |formattedLine| > option.maxLineLength {
          // the source leaves the wrapping of long lines unimplemented here
        }
        formattedLines := formattedLines + [formattedLine];
        if OpenerPosition(line).Some? {
          currentIndent := currentIndent + 1;
        }
        i := i + 1;
      }
      assert lines[..i] == lines;
    }

    /** What main.rb:47-67 actually returns: the value of `lines.each`,
        which is its receiver, the unformatted lines. Both option reads,
        the indent size (main.rb:45) and the maximum line length
        (main.rb:57), are taken from `@option` here; with either read left
        on `@options` the method raises NoMethodError before it gets that
        far on any source with at least one line. */
    method FormatSourceAsWritten(source: string) returns (r: Result<seq<string>>)
      ensures option.indentSize < 0 ==> r == Err(ArgumentError)
      ensures option.indentSize >= 0 ==> r == Ok(Split(source))
    {
      var lines := Split(source);
      var formatted := FormatSource(source);
      if formatted.Err? {
        return Err(formatted.error);
      }
      r := Ok(lines);
    }
  }

  /** The options other than the indent size never reach the output: two
      formatters that agree on the indent size format every source alike,
      whatever their maximum line length and trailing-comma setting
      (main.rb:28-30, 57-59). */
  method SameIndentSameOutput(f: Formatter, g: Formatter, source: string)
    returns (fromF: Result<seq<string>>, fromG: Result<seq<string>>)
    requires f.option.indentSize == g.option.indentSize
    ensures fromF == fromG
  {
    fromF := f.FormatSource(source);
    fromG := g.FormatSource(source);
  }

  /** The value format_source returns as written (the input lines) is not
      the formatted buffer: as soon as the first line starts with a blank,
      the buffer holds that line stripped, and so differs from the input. */
  lemma ReturnValueDiffers(unit: string, lines: seq<string>)
    requires lines != [] && lines[0] != [] && IsStripSpace(lines[0][0])
    ensures Formatted(unit, lines)[0] == Strip(lines[0])
    ensures Formatted(unit, lines) != lines
  {
    var line := lines[0];
    assert lines[..0] == [];
    FormattedLine(unit, lines, 0);
    assert Repeat(unit, 0) == [];
    StripRemovesOnlyOuterBlanks(line);
    assert LeadingBlanks(line) != 0;
  }
}
