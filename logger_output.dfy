/**
 * `MindustryLogger`: whether a level is enabled, and the line a logging
 * call hands to arc's `Log.log`.
 */
module LoggerOutput {
  import opened Wrappers
  import opened Text
  import opened Levels
  import opened Runtime

  /**
   * The `arc.util.ColorCodes` strings the line uses. arc sets them to ANSI
   * escapes or to empty strings depending on the platform, so they are
   * inputs here.
   */
  datatype Palette = Palette(
    reset: string, bold: string,
    lightCyan: string, lightYellow: string, lightRed: string, lightBlue: string)

  /** The value of a server `Administration.Config` entry. */
  datatype ConfigValue = BoolValue(b: bool) | OtherValue(text: string)

  /** `config.isBool() && config.bool()` */
  predicate IsTrue(v: ConfigValue)
  {
    v.BoolValue? && v.b
  }

  /** The process-wide values a logging call reads. */
  datatype Settings = Settings(
    hostLevel: LogLevel,        // arc's `Log.level`
    loggerTrace: bool,          // config `loggerTrace`
    displayMod: ConfigValue,    // config `loggerDisplayMod`
    displayClass: ConfigValue,  // config `loggerDisplayClass`
    colors: Palette)

  /** `isArcLogLevelAtLeast(level)`: compares `LogLevel` ordinals with the host's. */
  predicate IsArcLogLevelAtLeast(host: LogLevel, level: LogLevel): (r: bool)
    ensures host == none || level == none ==> !r
    ensures host == debug ==> (r <==> level != none)
    ensures level == err ==> (r <==> host != none)
  {
    level != none && host.Ordinal() <= level.Ordinal()
  }

  predicate IsTraceEnabled(s: Settings): (r: bool)
    ensures r <==> IsDebugEnabled(s) && s.loggerTrace
  {
    IsArcLogLevelAtLeast(s.hostLevel, debug) && s.loggerTrace
  }

  predicate IsDebugEnabled(s: Settings): (r: bool)
    ensures r ==> IsInfoEnabled(s)
    ensures r <==> s.hostLevel == debug
  {
    IsArcLogLevelAtLeast(s.hostLevel, debug)
  }

  predicate IsInfoEnabled(s: Settings): (r: bool)
    ensures r ==> IsWarnEnabled(s)
    ensures r <==> s.hostLevel == debug || s.hostLevel == info
  {
    IsArcLogLevelAtLeast(s.hostLevel, info)
  }

  predicate IsWarnEnabled(s: Settings): (r: bool)
    ensures r ==> IsErrorEnabled(s)
    ensures !r <==> s.hostLevel == err || s.hostLevel == none
  {
    IsArcLogLevelAtLeast(s.hostLevel, warn)
  }

  predicate IsErrorEnabled(s: Settings): (r: bool)
    ensures !r <==> s.hostLevel == none
  {
    IsArcLogLevelAtLeast(s.hostLevel, err)
  }

  /** SLF4J's `Logger.isEnabledForLevel`: dispatch to the five checks above. */
  predicate IsEnabledForLevel(s: Settings, level: Level)
  {
    match level
    case TRACE => IsTraceEnabled(s)
    case DEBUG => IsDebugEnabled(s)
    case INFO => IsInfoEnabled(s)
    case WARN => IsWarnEnabled(s)
    case ERROR => IsErrorEnabled(s)
  }

  /** `getArcLogLevel(level)` */
  function GetArcLogLevel(level: Level): (r: LogLevel)
    ensures r != none
  {
    match level
    case TRACE => debug
    case DEBUG => debug
    case WARN => warn
    case ERROR => err
    case INFO => info
  }

  /** `getColorCode(level)` */
  function GetColorCode(p: Palette, level: Level): (r: string)
    ensures r == (match GetArcLogLevel(level)
                  case debug => p.lightCyan
                  case info => p.lightBlue
                  case warn => p.lightYellow
                  case _ => p.lightRed) + p.bold
  {
    match level
    case TRACE => p.lightCyan + p.bold
    case DEBUG => p.lightCyan + p.bold
    case WARN => p.lightYellow + p.bold
    case ERROR => p.lightRed + p.bold
    case INFO => p.lightBlue + p.bold
  }

  /** A `Throwable`: its `toString()` and what `printStackTrace` writes. */
  datatype Failure = Failure(text: string, stackTrace: string)

  /** One element of the `Object[]` arguments. */
  datatype Arg = Plain(text: string) | Thrown(failure: Failure)

  /** How the formatter renders an argument: `String.valueOf`. */
  function ArgText(a: Arg): string
  {
    match a
    case Plain(t) => t
    case Thrown(f) => f.text
  }

  function ArgTexts(args: seq<Arg>): (r: seq<string>)
    ensures |r| == |args|
    ensures forall i :: 0 <= i < |args| ==> r[i] == ArgText(args[i])
  {
    if args == [] then [] else [ArgText(args[0])] + ArgTexts(args[1..])
  }

  /** A null argument array formats like an empty one. */
  function Elements(arguments: Option<seq<Arg>>): seq<Arg>
  {
    if arguments.Some? then arguments.value else []
  }

  /** No explicit throwable was passed and the last argument is one. */
  predicate AbsorbsLastArgument(arguments: Option<seq<Arg>>, throwable: Option<Failure>)
  {
    throwable.None? && arguments.Some? && |arguments.value| != 0
      && arguments.value[|arguments.value| - 1].Thrown?
  }

  /**
   * Lines 147-153: a trailing throwable argument becomes the call's
   * throwable; the other arguments keep their order, and a one-element
   * array becomes null.
   */
  function Absorb(arguments: Option<seq<Arg>>, throwable: Option<Failure>): (r: (Option<seq<Arg>>, Option<Failure>))
    ensures !AbsorbsLastArgument(arguments, throwable) ==> r == (arguments, throwable)
    ensures AbsorbsLastArgument(arguments, throwable) ==>
      var args := arguments.value;
      && r.1 == Some(args[|args| - 1].failure)
      && (|args| == 1 ==> r.0 == None)
      && (|args| > 1 ==> r.0 == Some(args[..|args| - 1]))
    ensures r.1.Some?
      ==> Elements(r.0) + (if throwable.None? then [Thrown(r.1.value)] else []) == Elements(arguments)
    ensures r.1.None? ==> r.0 == arguments
  {
    if AbsorbsLastArgument(arguments, throwable) then
      var args := arguments.value;
      (if |args| == 1 then None else Some(args[..|args| - 1]), Some(args[|args| - 1].failure))
    else
      (arguments, throwable)
  }

  /** What `"{}"` is rewritten to: arc colour markup around the placeholder. */
  const HIGHLIGHTED_PLACEHOLDER: string := "&fb&lb" + "{}" + "&fr"

  /** `pattern` begins with the placeholder `{}`. */
  predicate AtPlaceholder(pattern: string)
  {
    |pattern| >= 2 && pattern[0] == '{' && pattern[1] == '}'
  }

  /** The placeholders of `pattern`, counted left to right without overlap. */
  function Placeholders(pattern: string): nat
  {
    if pattern == [] then 0
    else if AtPlaceholder(pattern) then 1 + Placeholders(pattern[2..])
    else Placeholders(pattern[1..])
  }

  /**
   * `pattern.replace("{}", "&fb&lb{}&fr")`. A highlighted pattern never
   * begins with `}`, so highlighting cannot join a `{` before it into a new
   * placeholder.
   */
  function Highlight(pattern: string): (r: string)
    ensures pattern == [] <==> r == []
    ensures pattern != [] ==> r[0] == (if AtPlaceholder(pattern) then '&' else pattern[0])
  {
    if pattern == [] then []
    else if AtPlaceholder(pattern) then HIGHLIGHTED_PLACEHOLDER + Highlight(pattern[2..])
    else [pattern[0]] + Highlight(pattern[1..])
  }

  /**
   * `MessageFormatter.basicArrayFormat`, reduced to positional
   * substitution: each `{}` takes the next argument; once the arguments
   * run out the rest of the pattern is copied, and surplus arguments are
   * ignored.
   */
  function Format(pattern: string, args: seq<string>): (r: string)
    ensures args == [] ==> r == pattern
  {
    if pattern == [] then []
    else if AtPlaceholder(pattern) && args != [] then args[0] + Format(pattern[2..], args[1..])
    else
      assert pattern == [pattern[0]] + pattern[1..];
      [pattern[0]] + Format(pattern[1..], args)
  }

  /** A colour-tagged label: `colour + "[" + text + "]" + reset + " "`. */
  function Tag(color: string, text: string, reset: string): string
  {
    color + "[" + text + "]" + reset + " "
  }

  /** Lines 124-141: the owner tag, then the name tag, on non-root loggers. */
  function Prefix(s: Settings, logger: LoggerEntry, level: Level): (r: string)
    ensures logger.name == ROOT_LOGGER_NAME ==> r == ""
    ensures !(logger.owner.Some? && IsTrue(s.displayMod)) && !IsTrue(s.displayClass) ==> r == ""
    ensures r != "" ==> StartsWith(r, GetColorCode(s.colors, level) + "[")
    ensures logger.name != ROOT_LOGGER_NAME ==>
      var color := GetColorCode(s.colors, level);
      |r| == (if logger.owner.Some? && IsTrue(s.displayMod) then |Tag(color, logger.owner.value, s.colors.reset)| else 0)
        + (if IsTrue(s.displayClass) then |Tag(color, logger.name, s.colors.reset)| else 0)
  {
    if logger.name == ROOT_LOGGER_NAME then ""
    else
      var color := GetColorCode(s.colors, level);
      assert forall t :: StartsWith(Tag(color, t, s.colors.reset), color + "[");
      (if logger.owner.Some? && IsTrue(s.displayMod) then Tag(color, logger.owner.value, s.colors.reset) else "")
        + (if IsTrue(s.displayClass) then Tag(color, logger.name, s.colors.reset) else "")
  }

  /** Everything before the message body: the tags, then the colour of an error. */
  function Lead(s: Settings, logger: LoggerEntry, level: Level): string
  {
    Prefix(s, logger, level) + (if level == ERROR then GetColorCode(s.colors, level) else "")
  }

  /** The complete line for one call: prefix, error colour, message body, stack trace. */
  function RenderedLine(
    s: Settings, logger: LoggerEntry, level: Level,
    pattern: string, arguments: Option<seq<Arg>>, throwable: Option<Failure>): (r: string)
    ensures StartsWith(r, Lead(s, logger, level))
    ensures throwable.Some? ==> EndsWith(r, ": " + throwable.value.stackTrace)
    ensures AbsorbsLastArgument(arguments, throwable) ==>
      EndsWith(r, ": " + arguments.value[|arguments.value| - 1].failure.stackTrace)
  {
    var absorbed := Absorb(arguments, throwable);
    Lead(s, logger, level)
      + Format(Highlight(pattern), ArgTexts(Elements(absorbed.0)))
      + (if absorbed.1.Some? then ": " + absorbed.1.value.stackTrace else "")
  }

  /**
   * `handleNormalizedLoggingCall`: builds the line step by step and returns
   * the level and text it passes to `Log.log`.
   */
  method HandleNormalizedLoggingCall(
    s: Settings, logger: LoggerEntry, level: Level,
    messagePattern: string, arguments: Option<seq<Arg>>, throwable: Option<Failure>)
    returns (arcLevel: LogLevel, line: string)
    ensures arcLevel == GetArcLogLevel(level)
    ensures line == RenderedLine(s, logger, level, messagePattern, arguments, throwable)
  {
    var builder: string := "";

    if logger.name != ROOT_LOGGER_NAME {
      if logger.owner.Some? && IsTrue(s.displayMod) {
        builder := builder + Tag(GetColorCode(s.colors, level), logger.owner.value, s.colors.reset);
      }
      if IsTrue(s.displayClass) {
        builder := builder + Tag(GetColorCode(s.colors, level), logger.name, s.colors.reset);
      }
    }
    assert builder == Prefix(s, logger, level);

    if level == ERROR {
      builder := builder + GetColorCode(s.colors, level);
    }
    ghost var head := builder;
    assert head == Lead(s, logger, level);

    var args := arguments;
    var thrown := throwable;
    if thrown.None? && args.Some? && |args.value| != 0 && args.value[|args.value| - 1].Thrown? {
      thrown := Some(args.value[|args.value| - 1].failure);
      args := if |args.value| == 1 then None else Some(args.value[..|args.value| - 1]);
    }
    assert (args, thrown) == Absorb(arguments, throwable);

    var body := Format(Highlight(messagePattern), ArgTexts(Elements(args)));
    builder := builder + body;

    if thrown.Some? {
      builder := builder + (": " + thrown.value.stackTrace);
    }
    assert builder == head + body + (if thrown.Some? then ": " + thrown.value.stackTrace else "");

    arcLevel, line := GetArcLogLevel(level), builder;
  }

  /** An argument as the line shows it: inside the highlight markup. */
  function Wrap(text: string): string
  {
    "&fb&lb" + text + "&fr"
  }

  function Wrapped(texts: seq<string>): (r: seq<string>)
    ensures |r| == |texts|
    ensures forall i :: 0 <= i < |texts| ==> r[i] == Wrap(texts[i])
  {
    if texts == [] then [] else [Wrap(texts[0])] + Wrapped(texts[1..])
  }

  /** How many placeholders of `pattern` find no argument among `count`. */
  function Unfilled(pattern: string, count: nat): nat
  {
    if count < Placeholders(pattern) then Placeholders(pattern) - count else 0
  }

  /** A pattern without placeholders ignores every argument. */
  lemma {:induction false} FormatWithoutPlaceholders(pattern: string, args: seq<string>)
    requires Placeholders(pattern) == 0
    ensures Format(pattern, args) == pattern
  {
    if pattern != [] {
      FormatWithoutPlaceholders(pattern[1..], args);
      assert pattern == [pattern[0]] + pattern[1..];
    }
  }

  /** Text without `{` is copied, and formatting goes on after it unchanged. */
  lemma {:induction false} FormatLiteralPrefix(literal: string, rest: string, args: seq<string>)
    requires '{' !in literal
    ensures Format(literal + rest, args) == literal + Format(rest, args)
  {
    if literal != [] {
      assert literal[0] in literal;
      assert forall c :: c in literal[1..] ==> c in literal;
      assert (literal + rest)[0] == literal[0] != '{';
      assert (literal + rest)[1..] == literal[1..] + rest;
      FormatLiteralPrefix(literal[1..], rest, args);
      calc {
        Format(literal + rest, args);
        [literal[0]] + Format(literal[1..] + rest, args);
        [literal[0]] + (literal[1..] + Format(rest, args));
        { assert literal == [literal[0]] + literal[1..]; }
        literal + Format(rest, args);
      }
    } else {
      assert literal + rest == rest;
    }
  }

  /** A highlighted placeholder takes the next argument and wraps it; with none left it stays. */
  lemma FormatHighlightedPlaceholder(rest: string, args: seq<string>)
    ensures args != [] ==>
      Format(HIGHLIGHTED_PLACEHOLDER + rest, args) == Wrap(args[0]) + Format(rest, args[1..])
    ensures args == [] ==>
      Format(HIGHLIGHTED_PLACEHOLDER + rest, args) == HIGHLIGHTED_PLACEHOLDER + Format(rest, args)
  {
    var open := "&fb&lb";
    var close := "&fr";
    assert HIGHLIGHTED_PLACEHOLDER + rest == open + ("{}" + (close + rest));
    FormatLiteralPrefix(open, "{}" + (close + rest), args);
    FormatLiteralPrefix(close, rest, if args == [] then [] else args[1..]);
    var tail := "{}" + (close + rest);
    assert AtPlaceholder(tail) && tail[2..] == close + rest;
    if args == [] {
      assert tail[1..] == "}" + (close + rest);
      assert tail[1..][1..] == close + rest;
    }
  }

  /**
   * Highlighting the pattern before formatting amounts to wrapping every
   * argument in the highlight markup; each placeholder left without an
   * argument keeps the markup around its `{}`.
   */
  lemma {:induction false} FormatHighlighted(pattern: string, args: seq<string>)
    ensures Format(Highlight(pattern), args)
      == Format(pattern, Wrapped(args) + seq(Unfilled(pattern, |args|), _ => HIGHLIGHTED_PLACEHOLDER))
  {
    var padded := Wrapped(args) + seq(Unfilled(pattern, |args|), _ => HIGHLIGHTED_PLACEHOLDER);
    if pattern == [] {
    } else if AtPlaceholder(pattern) {
      var rest := pattern[2..];
      FormatHighlightedPlaceholder(Highlight(rest), args);
      FormatHighlighted(rest, if args == [] then [] else args[1..]);
      assert Highlight(pattern) == HIGHLIGHTED_PLACEHOLDER + Highlight(rest);
      if args == [] {
        assert Wrapped([]) + seq(Unfilled(rest, 0), _ => HIGHLIGHTED_PLACEHOLDER)
          == seq(Unfilled(rest, 0), _ => HIGHLIGHTED_PLACEHOLDER);
        assert padded[1..] == seq(Unfilled(rest, 0), _ => HIGHLIGHTED_PLACEHOLDER);
        assert Placeholders(pattern) == 1 + Placeholders(rest);
        assert padded == seq(1 + Unfilled(rest, 0), _ => HIGHLIGHTED_PLACEHOLDER);
        assert padded[0] == HIGHLIGHTED_PLACEHOLDER;
        assert Format(pattern, padded) == HIGHLIGHTED_PLACEHOLDER + Format(rest, padded[1..]);
      } else {
        assert padded[0] == Wrap(args[0]);
        assert padded[1..] == Wrapped(args[1..]) + seq(Unfilled(rest, |args| - 1), _ => HIGHLIGHTED_PLACEHOLDER);
      }
    } else {
      var rest := pattern[1..];
      FormatHighlighted(rest, args);
      var h := [pattern[0]] + Highlight(rest);
      assert !AtPlaceholder(h);
      assert h[1..] == Highlight(rest);
    }
  }

  /** When every placeholder has an argument, each argument appears wrapped in the markup. */
  lemma FormatHighlightedWithEnoughArguments(pattern: string, args: seq<string>)
    requires Placeholders(pattern) <= |args|
    ensures Format(Highlight(pattern), args) == Format(pattern, Wrapped(args))
  {
    FormatHighlighted(pattern, args);
    assert Wrapped(args) + seq(0, _ => HIGHLIGHTED_PLACEHOLDER) == Wrapped(args);
  }

  /**
   * Whether a level is enabled agrees with the arc level its line is logged
   * at: arc passes that level, and trace further needs `loggerTrace`.
   */
  lemma EnabledIffArcLevelPasses(s: Settings, level: Level)
    ensures IsEnabledForLevel(s, level)
      <==> IsArcLogLevelAtLeast(s.hostLevel, GetArcLogLevel(level)) && (level == TRACE ==> s.loggerTrace)
  {
  }

  /** Enabling a level enables every more severe one; a silent host enables none. */
  lemma EnablementNested(s: Settings)
    ensures IsTraceEnabled(s) <==> IsDebugEnabled(s) && s.loggerTrace
    ensures IsDebugEnabled(s) ==> IsInfoEnabled(s)
    ensures IsInfoEnabled(s) ==> IsWarnEnabled(s)
    ensures IsWarnEnabled(s) ==> IsErrorEnabled(s)
    ensures !IsErrorEnabled(s) <==> s.hostLevel == none
  {
  }

  /** The root logger's lines carry no tags, whatever the configuration. */
  lemma RootLoggerHasNoTags(s: Settings, owner: Option<string>, level: Level)
    ensures Lead(s, LoggerEntry(ROOT_LOGGER_NAME, owner), level)
      == (if level == ERROR then GetColorCode(s.colors, level) else "")
  {
  }

  /**
   * A throwable passed as the last argument is taken out of the arguments:
   * the others are formatted and its stack trace ends the line.
   */
  lemma TrailingThrowableBecomesStackTrace(
    s: Settings, logger: LoggerEntry, level: Level, pattern: string, args: seq<Arg>, f: Failure)
    ensures RenderedLine(s, logger, level, pattern, Some(args + [Thrown(f)]), None)
      == Lead(s, logger, level) + Format(Highlight(pattern), ArgTexts(args)) + (": " + f.stackTrace)
  {
    var arguments := args + [Thrown(f)];
    assert arguments[..|arguments| - 1] == args;
    assert AbsorbsLastArgument(Some(arguments), None);
  }

  /** With an explicit throwable every argument is formatted, a throwable one by its text. */
  lemma ExplicitThrowableKeepsArguments(
    s: Settings, logger: LoggerEntry, level: Level, pattern: string, arguments: Option<seq<Arg>>, t: Failure)
    ensures RenderedLine(s, logger, level, pattern, arguments, Some(t))
      == Lead(s, logger, level) + Format(Highlight(pattern), ArgTexts(Elements(arguments))) + (": " + t.stackTrace)
  {
  }

  /** Without a throwable, explicit or trailing, the line ends with the message body. */
  lemma NoThrowableNoStackTrace(
    s: Settings, logger: LoggerEntry, level: Level, pattern: string, arguments: Option<seq<Arg>>)
    requires !AbsorbsLastArgument(arguments, None)
    ensures RenderedLine(s, logger, level, pattern, arguments, None)
      == Lead(s, logger, level) + Format(Highlight(pattern), ArgTexts(Elements(arguments)))
  {
    assert Absorb(arguments, None) == (arguments, None);
  }

  /** TRACE and DEBUG, and each other level alone, share both an arc level and a colour. */
  lemma ColorFollowsArcLevel(p: Palette, a: Level, b: Level)
    requires GetArcLogLevel(a) == GetArcLogLevel(b)
    ensures GetColorCode(p, a) == GetColorCode(p, b)
  {
  }

  /**
   * A non-root logger shows the owner tag when it has an owner and
   * `loggerDisplayMod` is boolean true, then the name tag when
   * `loggerDisplayClass` is boolean true; the root logger shows neither.
   */
  lemma PrefixShowsEnabledTags(s: Settings, logger: LoggerEntry, level: Level)
    ensures var ownerTag := logger.owner.Some? && IsTrue(s.displayMod);
      Prefix(s, logger, level) == "" <==> logger.name == ROOT_LOGGER_NAME || (!ownerTag && !IsTrue(s.displayClass))
    ensures logger.name != ROOT_LOGGER_NAME && logger.owner.Some? && IsTrue(s.displayMod) ==>
      StartsWith(Prefix(s, logger, level), Tag(GetColorCode(s.colors, level), logger.owner.value, s.colors.reset))
    ensures logger.name != ROOT_LOGGER_NAME && IsTrue(s.displayClass) ==>
      var prefix := Prefix(s, logger, level);
      var tag := Tag(GetColorCode(s.colors, level), logger.name, s.colors.reset);
      |tag| <= |prefix| && prefix[|prefix| - |tag|..] == tag
    ensures logger.name != ROOT_LOGGER_NAME ==>
      var color := GetColorCode(s.colors, level);
      |Prefix(s, logger, level)|
        == (if logger.owner.Some? && IsTrue(s.displayMod) then |Tag(color, logger.owner.value, s.colors.reset)| else 0)
         + (if IsTrue(s.displayClass) then |Tag(color, logger.name, s.colors.reset)| else 0)
  {
    var color := GetColorCode(s.colors, level);
    if logger.name != ROOT_LOGGER_NAME {
      var first := if logger.owner.Some? && IsTrue(s.displayMod) then Tag(color, logger.owner.value, s.colors.reset) else "";
      var second := if IsTrue(s.displayClass) then Tag(color, logger.name, s.colors.reset) else "";
      assert Prefix(s, logger, level) == first + second;
      assert (first + second)[..|first|] == first;
      assert (first + second)[|first + second| - |second|..] == second;
      if first != [] {
        assert (first + second)[|color|] == '[';
      }
      if second != [] {
        assert (first + second)[|first| + |color|] == '[';
      }
    }
  }

  /** Text without `{` holds no placeholder, and does not change those after it. */
  lemma {:induction false} PlaceholdersLiteralPrefix(literal: string, rest: string)
    requires '{' !in literal
    ensures Placeholders(literal + rest) == Placeholders(rest)
  {
    if literal != [] {
      assert literal[0] in literal;
      assert forall c :: c in literal[1..] ==> c in literal;
      assert (literal + rest)[0] == literal[0] != '{';
      assert (literal + rest)[1..] == literal[1..] + rest;
      PlaceholdersLiteralPrefix(literal[1..], rest);
    } else {
      assert literal + rest == rest;
    }
  }

  /** The highlight markup holds exactly one placeholder. */
  lemma PlaceholdersHighlighted(rest: string)
    ensures Placeholders(HIGHLIGHTED_PLACEHOLDER + rest) == 1 + Placeholders(rest)
  {
    var close := "&fr";
    var tail := "{}" + (close + rest);
    assert HIGHLIGHTED_PLACEHOLDER + rest == "&fb&lb" + tail;
    PlaceholdersLiteralPrefix("&fb&lb", tail);
    assert AtPlaceholder(tail) && tail[2..] == close + rest;
    PlaceholdersLiteralPrefix(close, rest);
  }

  /** Rewriting `{}` into the highlight markup keeps the number of placeholders. */
  lemma {:induction false} HighlightKeepsPlaceholders(pattern: string)
    ensures Placeholders(Highlight(pattern)) == Placeholders(pattern)
  {
    if pattern == [] {
    } else if AtPlaceholder(pattern) {
      HighlightKeepsPlaceholders(pattern[2..]);
      PlaceholdersHighlighted(Highlight(pattern[2..]));
    } else {
      var h := [pattern[0]] + Highlight(pattern[1..]);
      HighlightKeepsPlaceholders(pattern[1..]);
      assert !AtPlaceholder(h);
      assert h[1..] == Highlight(pattern[1..]);
    }
  }

  /** `"{} plus {}"` formatted with `1` and `2` after highlighting. */
  lemma TwoArgumentsAreHighlightedInBody()
    ensures Format(Highlight("{}" + " plus " + "{}"), ["1", "2"]) == Wrap("1") + " plus " + Wrap("2")
  {
    var tail := " plus " + "{}";
    assert ("{}" + tail)[2..] == tail;
    assert Placeholders("{}" + tail) == 2 by {
      PlaceholdersLiteralPrefix(" plus ", "{}");
      assert "{}"[2..] == [];
    }
    FormatHighlightedWithEnoughArguments("{}" + tail, ["1", "2"]);
    assert Wrapped(["1", "2"]) == [Wrap("1"), Wrap("2")];
    calc {
      Format("{}" + tail, [Wrap("1"), Wrap("2")]);
      Wrap("1") + Format(tail, [Wrap("2")]);
      { FormatLiteralPrefix(" plus ", "{}", [Wrap("2")]); }
      Wrap("1") + (" plus " + Format("{}", [Wrap("2")]));
      { assert "{}"[2..] == []; }
      Wrap("1") + (" plus " + Wrap("2"));
    }
    assert "{}" + " plus " + "{}" == "{}" + tail;
  }

  /** `"{} plus {}"` with the arguments 1 and 2 on the root logger at INFO. */
  lemma TwoArgumentsAreHighlighted(s: Settings)
    ensures RenderedLine(s, RootEntry(), INFO, "{}" + " plus " + "{}", Some([Plain("1"), Plain("2")]), None)
      == Wrap("1") + " plus " + Wrap("2")
  {
    TwoArgumentsAreHighlightedInBody();
    assert ArgTexts([Plain("1"), Plain("2")]) == ["1", "2"];
    assert Lead(s, RootEntry(), INFO) == "";
    assert Absorb(Some([Plain("1"), Plain("2")]), None) == (Some([Plain("1"), Plain("2")]), None);
  }
}
