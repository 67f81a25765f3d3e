/**
 * `MindustryLoggerMod`: the process-wide display flags, the per-logger
 * level overrides keyed by lower-cased logger name, the settings loader and
 * the `slf4md` server command.
 *
 * arc's `Log.level` is the `host` parameter throughout. The static fields
 * are the fields of one `MindustryLoggerMod` object; the functions that only
 * read them take their values as parameters.
 */
module LevelPolicy {
  import opened Wrappers
  import opened Text
  import opened Levels
  import opened Runtime
  import opened LoggerOutput

  /** `getRootLoggerLevel()`: the host's verbosity as an SLF4J level; `none` gives no level. */
  function RootLoggerLevel(host: LogLevel, traceEnabled: bool): (r: Option<Level>)
    ensures r.None? <==> host == none
    ensures r.Some? ==> GetArcLogLevel(r.value) == host
    ensures r == Some(TRACE) <==> host == debug && traceEnabled
  {
    match host
    case debug => if traceEnabled then Some(TRACE) else Some(DEBUG)
    case warn => Some(WARN)
    case err => Some(ERROR)
    case none => None
    case info => Some(INFO)
  }

  /** The key every casing of the root logger's name maps to. */
  const ROOT_KEY: string := Lower(ROOT_LOGGER_NAME)

  /**
   * `getLoggerLevel(logger)`: any casing of the root name reads the derived
   * root level; any other name reads its override, if one is set.
   */
  function LoggerLevel(host: LogLevel, traceEnabled: bool, levels: map<string, Level>, logger: string): (r: Option<Level>)
    ensures Lower(logger) == ROOT_KEY ==> r == RootLoggerLevel(host, traceEnabled)
    ensures Lower(logger) != ROOT_KEY ==> (r.Some? <==> Lower(logger) in levels)
    ensures Lower(logger) != ROOT_KEY && r.Some? ==> r.value == levels[Lower(logger)]
  {
    var name := Lower(logger);
    if name == ROOT_KEY then RootLoggerLevel(host, traceEnabled)
    else if name in levels then Some(levels[name])
    else None
  }

  /** The table after `setLoggerLevel(logger, level)`: only the lower-cased name changes. */
  function WithLevel(levels: map<string, Level>, logger: string, level: Option<Level>): (r: map<string, Level>)
    ensures Lower(logger) in r <==> level.Some?
    ensures level.Some? ==> r[Lower(logger)] == level.value
    ensures forall k :: k != Lower(logger) ==> (k in r <==> k in levels)
    ensures forall k :: k != Lower(logger) && k in r ==> r[k] == levels[k]
  {
    if level.None? then levels - {Lower(logger)} else levels[Lower(logger) := level.value]
  }

  /** `hasAtLeastLevel(logger, level)`: the override, else the root level, else nothing passes. */
  function HasAtLeastLevel(host: LogLevel, traceEnabled: bool, levels: map<string, Level>, logger: string, level: Level): (r: bool)
    ensures Lower(logger) != ROOT_KEY && Lower(logger) in levels ==> (r <==> level.ToInt() >= levels[Lower(logger)].ToInt())
    ensures Lower(logger) == ROOT_KEY || Lower(logger) !in levels ==>
      (r <==> host != none && level.ToInt() >= RootLoggerLevel(host, traceEnabled).value.ToInt())
  {
    var own := LoggerLevel(host, traceEnabled, levels, logger);
    var configured := if own.Some? then own else RootLoggerLevel(host, traceEnabled);
    configured.Some? && level.ToInt() >= configured.value.ToInt()
  }

  /** A parsed settings value, as far as the loader distinguishes them. */
  datatype Json = JBool(b: bool) | JString(s: string) | JObject(fields: seq<(string, Json)>) | JOther

  /** A flag setting: a boolean replaces the current value, anything else or nothing leaves it. */
  function BoolSetting(config: map<string, Json>, key: string, current: bool): (r: bool)
    ensures key in config && config[key].JBool? ==> r == config[key].b
    ensures r != current ==> key in config && config[key] == JBool(r)
  {
    if key in config && config[key].JBool? then config[key].b else current
  }

  /** The level a `log-levels` entry names: only strings naming a level, in any case, count. */
  function EntryLevel(value: Json): (r: Option<Level>)
    ensures r.Some? ==> value.JString? && Upper(value.s) == r.value.Name()
    ensures forall l: Level :: value.JString? && Upper(value.s) == l.Name() ==> r == Some(l)
  {
    if value.JString? then ParseLevel(value.s) else None
  }

  /** The table after loading `entries` in order: each valid one is stored under its lower-cased key. */
  function LoadedLevels(table: map<string, Level>, entries: seq<(string, Json)>): (r: map<string, Level>)
    ensures table.Keys <= r.Keys
    ensures r.Keys <= table.Keys + set i | 0 <= i < |entries| && EntryLevel(entries[i].1).Some? :: Lower(entries[i].0)
  {
    if entries == [] then table
    else
      var init := entries[..|entries| - 1];
      assert forall i :: 0 <= i < |init| ==> init[i] == entries[i];
      var before := LoadedLevels(table, init);
      var entry := entries[|entries| - 1];
      var level := EntryLevel(entry.1);
      if level.Some? then before[Lower(entry.0) := level.value] else before
  }

  /** The `log-levels` entries of a settings object, if it has an object there. */
  function LevelEntries(config: map<string, Json>): seq<(string, Json)>
  {
    if "log-levels" in config && config["log-levels"].JObject? then config["log-levels"].fields else []
  }

  /** Loading one more entry: a valid one is stored under its lower-cased key. */
  lemma LoadedLevelsStep(table: map<string, Level>, entries: seq<(string, Json)>, i: nat)
    requires i < |entries|
    ensures var before := LoadedLevels(table, entries[..i]);
      LoadedLevels(table, entries[..i + 1])
        == if EntryLevel(entries[i].1).Some? then before[Lower(entries[i].0) := EntryLevel(entries[i].1).value] else before
  {
    assert entries[..i + 1][..i] == entries[..i];
  }

  /** A key the entries never set keeps what the table had. */
  lemma {:induction false} LoadedLevelsUntouched(table: map<string, Level>, entries: seq<(string, Json)>, k: string)
    requires forall i :: 0 <= i < |entries| ==> Lower(entries[i].0) != k || EntryLevel(entries[i].1).None?
    ensures k in LoadedLevels(table, entries) <==> k in table
    ensures k in table ==> LoadedLevels(table, entries)[k] == table[k]
  {
    if entries != [] {
      var init := entries[..|entries| - 1];
      assert forall i :: 0 <= i < |init| ==> init[i] == entries[i];
      LoadedLevelsUntouched(table, init, k);
    }
  }

  /** The last valid entry for a key decides that key's level. */
  lemma {:induction false} LoadedLevelsLastWins(table: map<string, Level>, entries: seq<(string, Json)>, i: nat)
    requires i < |entries| && EntryLevel(entries[i].1).Some?
    requires forall j :: i < j < |entries| ==>
      Lower(entries[j].0) != Lower(entries[i].0) || EntryLevel(entries[j].1).None?
    ensures Lower(entries[i].0) in LoadedLevels(table, entries)
    ensures LoadedLevels(table, entries)[Lower(entries[i].0)] == EntryLevel(entries[i].1).value
  {
    var init := entries[..|entries| - 1];
    var last := entries[|entries| - 1];
    if i < |entries| - 1 {
      assert init[i] == entries[i];
      assert forall j :: i < j < |init| ==> init[j] == entries[j];
      LoadedLevelsLastWins(table, init, i);
      assert Lower(last.0) != Lower(entries[i].0) || EntryLevel(last.1).None?;
    }
  }

  /** Loading stores only lower-case keys. */
  lemma {:induction false} LoadedLevelsLowerCase(table: map<string, Level>, entries: seq<(string, Json)>)
    requires forall k :: k in table ==> Lower(k) == k
    ensures forall k :: k in LoadedLevels(table, entries) ==> Lower(k) == k
  {
    if entries != [] {
      LoadedLevelsLowerCase(table, entries[..|entries| - 1]);
      LowerIdempotent(entries[|entries| - 1].0);
    }
  }

  /** The settings switches of the `slf4md` command. */
  datatype Flag = TraceLogging | ModNameDisplay | ClassNameDisplay

  /** What the `slf4md` command reports; the wording of the messages is not modelled. */
  datatype Reply =
    | Help
    | LogLevelUsage
    | LevelShown(logger: string, shown: Option<Level>)
    | RootLevelLocked
    | LevelCleared(logger: string)
    | InvalidLevel(text: string)
    | LevelSet(logger: string, level: Level)
    | LevelList(table: map<string, Level>)
    | FlagShown(flag: Flag, enabled: bool)
    | FlagUsage(flag: Flag)
    | FlagChanged(flag: Flag, enabled: bool)
    | UnknownSubcommand(name: string)

  /** A flag argument: `true` or `false` in any case, otherwise rejected. */
  function ParseFlag(text: string): (r: Option<bool>)
    ensures r.Some? <==> Lower(text) == "true" || Lower(text) == "false"
    ensures r.Some? ==> (r.value <==> Lower(text) == "true")
  {
    var value := Lower(text);
    if value != "true" && value != "false" then None else Some(value == "true")
  }

  /** The `log-level` subcommand: its reply and the override table after it. */
  function LogLevelOutcome(host: LogLevel, traceEnabled: bool, levels: map<string, Level>, args: seq<string>)
    : (r: (Reply, map<string, Level>))
    requires |args| >= 1
    ensures r.1 != levels ==> r.0.LevelCleared? || r.0.LevelSet?
    ensures r.0.LevelCleared? ==> |args| >= 3 && Lower(args[1]) != ROOT_KEY && r.1 == levels - {Lower(args[1])}
    ensures r.0.LevelSet? ==> |args| >= 3 && Lower(args[1]) != ROOT_KEY && r.1 == levels[Lower(args[1]) := r.0.level]
    ensures r.0 == RootLevelLocked <==> |args| >= 3 && Lower(args[1]) == ROOT_KEY
  {
    if |args| == 1 then (LogLevelUsage, levels)
    else if |args| == 2 then (LevelShown(args[1], LoggerLevel(host, traceEnabled, levels, args[1])), levels)
    else
      EqualsIgnoreCaseIffLower(args[1], ROOT_LOGGER_NAME);
      if EqualsIgnoreCase(args[1], ROOT_LOGGER_NAME) then (RootLevelLocked, levels)
      else if EqualsIgnoreCase(args[2], "clear") then (LevelCleared(args[1]), WithLevel(levels, args[1], None))
      else
        var level := ParseLevel(args[2]);
        if level.None? then (InvalidLevel(args[2]), levels)
        else (LevelSet(args[1], level.value), WithLevel(levels, args[1], level))
  }

  /** A flag subcommand: its reply and the flag's value after it. */
  function FlagOutcome(flag: Flag, current: bool, args: seq<string>): (r: (Reply, bool))
    requires |args| >= 1
    ensures r.0.FlagChanged? <==> |args| >= 2 && ParseFlag(args[1]).Some?
    ensures r.0.FlagChanged? ==> r.1 == r.0.enabled
    ensures r.1 != current ==> r.0 == FlagChanged(flag, r.1)
  {
    if |args| == 1 then (FlagShown(flag, current), current)
    else
      var value := ParseFlag(args[1]);
      if value.None? then (FlagUsage(flag), current) else (FlagChanged(flag, value.value), value.value)
  }

  /** The command names the root logger exactly when the lookup would treat the name as root. */
  lemma RootCheckAgreesWithLookup(name: string)
    ensures EqualsIgnoreCase(name, ROOT_LOGGER_NAME) <==> Lower(name) == ROOT_KEY
  {
    EqualsIgnoreCaseIffLower(name, ROOT_LOGGER_NAME);
  }

  /** The command never creates, changes or removes an override under the root key. */
  lemma LogLevelCommandSparesRoot(host: LogLevel, traceEnabled: bool, levels: map<string, Level>, args: seq<string>)
    requires |args| >= 1
    ensures var after := LogLevelOutcome(host, traceEnabled, levels, args).1;
      && (ROOT_KEY in after <==> ROOT_KEY in levels)
      && (ROOT_KEY in levels ==> after[ROOT_KEY] == levels[ROOT_KEY])
  {
    if |args| >= 3 {
      RootCheckAgreesWithLookup(args[1]);
    }
  }

  /** Targeting the root logger, in any case, is refused and leaves the table. */
  lemma RootLevelIsLocked(host: LogLevel, traceEnabled: bool, levels: map<string, Level>, args: seq<string>)
    requires |args| >= 3 && Lower(args[1]) == ROOT_KEY
    ensures LogLevelOutcome(host, traceEnabled, levels, args) == (RootLevelLocked, levels)
  {
    RootCheckAgreesWithLookup(args[1]);
  }

  /** `clear`, in any case, removes the logger's override and nothing else. */
  lemma ClearRemovesOverride(host: LogLevel, traceEnabled: bool, levels: map<string, Level>, args: seq<string>)
    requires |args| >= 3 && Lower(args[1]) != ROOT_KEY && Lower(args[2]) == "clear"
    ensures LogLevelOutcome(host, traceEnabled, levels, args) == (LevelCleared(args[1]), levels - {Lower(args[1])})
    ensures forall n :: Lower(n) == Lower(args[1]) ==>
      LoggerLevel(host, traceEnabled, LogLevelOutcome(host, traceEnabled, levels, args).1, n) == None
  {
    RootCheckAgreesWithLookup(args[1]);
    EqualsIgnoreCaseIffLower(args[2], "clear");
  }

  /** A word that is neither `clear` nor a level name is refused and leaves the table. */
  lemma InvalidLevelLeavesTable(host: LogLevel, traceEnabled: bool, levels: map<string, Level>, args: seq<string>)
    requires |args| >= 3 && Lower(args[1]) != ROOT_KEY && Lower(args[2]) != "clear"
    requires ParseLevel(args[2]).None?
    ensures LogLevelOutcome(host, traceEnabled, levels, args) == (InvalidLevel(args[2]), levels)
  {
    RootCheckAgreesWithLookup(args[1]);
    EqualsIgnoreCaseIffLower(args[2], "clear");
  }

  /** Setting a level makes every casing of the logger's name read it back. */
  lemma SetLevelIsReadBack(host: LogLevel, traceEnabled: bool, levels: map<string, Level>, args: seq<string>, n: string)
    requires |args| >= 3 && Lower(args[1]) != ROOT_KEY && Lower(args[2]) != "clear"
    requires ParseLevel(args[2]).Some? && Lower(n) == Lower(args[1])
    ensures LogLevelOutcome(host, traceEnabled, levels, args).0 == LevelSet(args[1], ParseLevel(args[2]).value)
    ensures LoggerLevel(host, traceEnabled, LogLevelOutcome(host, traceEnabled, levels, args).1, n) == ParseLevel(args[2])
  {
    RootCheckAgreesWithLookup(args[1]);
    EqualsIgnoreCaseIffLower(args[2], "clear");
  }

  /**
   * A flag subcommand changes its flag only for `true` or `false`, in any
   * case; any other word leaves it, and no argument only shows it.
   */
  lemma FlagChangesOnlyOnBoolean(flag: Flag, current: bool, args: seq<string>)
    requires |args| >= 1
    ensures |args| == 1 ==> FlagOutcome(flag, current, args) == (FlagShown(flag, current), current)
    ensures |args| >= 2 && Lower(args[1]) == "true" ==> FlagOutcome(flag, current, args) == (FlagChanged(flag, true), true)
    ensures |args| >= 2 && Lower(args[1]) == "false" ==> FlagOutcome(flag, current, args) == (FlagChanged(flag, false), false)
    ensures |args| >= 2 && Lower(args[1]) != "true" && Lower(args[1]) != "false" ==>
      FlagOutcome(flag, current, args) == (FlagUsage(flag), current)
  {
    if |args| >= 2 && Lower(args[1]) == "false" {
      assert Lower(args[1]) != "true";
    }
  }

  /** Every casing of a name reads the same level. */
  lemma LoggerLevelIgnoresCase(host: LogLevel, traceEnabled: bool, levels: map<string, Level>, a: string, b: string)
    requires Lower(a) == Lower(b)
    ensures LoggerLevel(host, traceEnabled, levels, a) == LoggerLevel(host, traceEnabled, levels, b)
  {
  }

  /** An override decides alone, whatever the host's level. */
  lemma OverrideTakesPrecedence(host: LogLevel, traceEnabled: bool, levels: map<string, Level>, logger: string, level: Level)
    requires Lower(logger) != ROOT_KEY && Lower(logger) in levels
    ensures HasAtLeastLevel(host, traceEnabled, levels, logger, level) <==> level.ToInt() >= levels[Lower(logger)].ToInt()
  {
  }

  /** A level that passes lets every more severe level pass. */
  lemma HasAtLeastLevelMonotone(host: LogLevel, traceEnabled: bool, levels: map<string, Level>, logger: string, a: Level, b: Level)
    requires a.ToInt() <= b.ToInt() && HasAtLeastLevel(host, traceEnabled, levels, logger, a)
    ensures HasAtLeastLevel(host, traceEnabled, levels, logger, b)
  {
  }

  /** A silent host lets nothing through for a logger without an override, not even ERROR. */
  lemma SilentHostWithoutOverride(traceEnabled: bool, levels: map<string, Level>, logger: string, level: Level)
    requires Lower(logger) == ROOT_KEY || Lower(logger) !in levels
    ensures !HasAtLeastLevel(none, traceEnabled, levels, logger, level)
  {
  }

  /**
   * For a logger without an override, the policy and a logger's own gating
   * agree whenever `loggerTrace` equals the policy's trace flag.
   */
  lemma PolicyAgreesWithLoggerGating(s: Settings, levels: map<string, Level>, logger: string, level: Level)
    requires Lower(logger) == ROOT_KEY || Lower(logger) !in levels
    ensures HasAtLeastLevel(s.hostLevel, s.loggerTrace, levels, logger, level) <==> IsEnabledForLevel(s, level)
  {
  }

  /** The static state of `MindustryLoggerMod`. */
  class MindustryLoggerMod {
    var showClassName: bool
    var showModName: bool
    var traceEnabled: bool
    var levels: map<string, Level>

    /** Overrides are keyed by lower-case names. */
    ghost predicate Valid()
      reads this
    {
      forall k :: k in levels ==> Lower(k) == k
    }

    /** The field initializers. */
    constructor ()
      ensures Valid()
      ensures !showClassName && showModName && !traceEnabled && levels == map[]
    {
      showClassName := false;
      showModName := true;
      traceEnabled := false;
      levels := map[];
    }

    method SetShowClassName(value: bool)
      modifies this
      ensures showClassName == value
      ensures showModName == old(showModName) && traceEnabled == old(traceEnabled) && levels == old(levels)
    {
      showClassName := value;
    }

    method SetShowModName(value: bool)
      modifies this
      ensures showModName == value
      ensures showClassName == old(showClassName) && traceEnabled == old(traceEnabled) && levels == old(levels)
    {
      showModName := value;
    }

    method SetTraceEnabled(value: bool)
      modifies this
      ensures traceEnabled == value
      ensures showClassName == old(showClassName) && showModName == old(showModName) && levels == old(levels)
    {
      traceEnabled := value;
    }

    /** `setLoggerLevel(logger, level)`: a missing level removes the override. */
    method SetLoggerLevel(logger: string, level: Option<Level>)
      requires Valid()
      modifies this
      ensures Valid()
      ensures levels == WithLevel(old(levels), logger, level)
      ensures showClassName == old(showClassName) && showModName == old(showModName) && traceEnabled == old(traceEnabled)
    {
      LowerIdempotent(logger);
      if level.None? {
        levels := levels - {Lower(logger)};
      } else {
        levels := levels[Lower(logger) := level.value];
      }
    }

    /**
     * `load()` on the parsed settings object; `None` is a missing or
     * unreadable file, which changes nothing.
     */
    method Load(file: Option<map<string, Json>>)
      requires Valid()
      modifies this
      ensures Valid()
      ensures file.None? ==>
        showClassName == old(showClassName) && showModName == old(showModName)
        && traceEnabled == old(traceEnabled) && levels == old(levels)
      ensures file.Some? ==>
        && showClassName == BoolSetting(file.value, "show-class-name", old(showClassName))
        && showModName == BoolSetting(file.value, "show-mod-name", old(showModName))
        && traceEnabled == BoolSetting(file.value, "trace-enabled", old(traceEnabled))
        && levels == LoadedLevels(old(levels), LevelEntries(file.value))
    {
      if file.None? {
        return;
      }
      var config := file.value;

      if "show-class-name" in config && config["show-class-name"].JBool? {
        showClassName := config["show-class-name"].b;
      }
      if "show-mod-name" in config && config["show-mod-name"].JBool? {
        showModName := config["show-mod-name"].b;
      }
      if "trace-enabled" in config && config["trace-enabled"].JBool? {
        traceEnabled := config["trace-enabled"].b;
      }

      LoadLevels(LevelEntries(config));
    }

    /** The `log-levels` loop of `load()`: each valid entry is stored under its lower-cased key. */
    method LoadLevels(entries: seq<(string, Json)>)
      requires Valid()
      modifies this
      ensures Valid()
      ensures levels == LoadedLevels(old(levels), entries)
      ensures showClassName == old(showClassName) && showModName == old(showModName) && traceEnabled == old(traceEnabled)
    {
      for i := 0 to |entries|
        invariant levels == LoadedLevels(old(levels), entries[..i])
        invariant Valid()
        invariant showClassName == old(showClassName) && showModName == old(showModName)
        invariant traceEnabled == old(traceEnabled)
      {
        LoadedLevelsStep(old(levels), entries, i);
        var entry := entries[i];
        if !entry.1.JString? {
          continue;
        }
        var level := ParseLevel(entry.1.s);
        if level.None? {
          continue;
        }
        LowerIdempotent(entry.0);
        levels := levels[Lower(entry.0) := level.value];
      }
      assert entries[..|entries|] == entries;
    }

    /** The `slf4md [subcommand] [arg1] [arg2]` server command. */
    method RunCommand(host: LogLevel, args: seq<string>) returns (reply: Reply)
      requires Valid()
      modifies this
      ensures Valid()
      ensures |args| == 0 || args[0] !in {"log-level", "enable-trace", "show-mod-name", "show-class-name"} ==>
        showClassName == old(showClassName) && showModName == old(showModName)
        && traceEnabled == old(traceEnabled) && levels == old(levels)
      ensures |args| == 0 ==> reply == Help
      ensures |args| >= 1 && args[0] == "log-level" ==>
        && (reply, levels) == LogLevelOutcome(host, old(traceEnabled), old(levels), args)
        && showClassName == old(showClassName) && showModName == old(showModName) && traceEnabled == old(traceEnabled)
      ensures |args| >= 1 && args[0] == "log-level-list" ==> reply == LevelList(levels)
      ensures |args| >= 1 && args[0] == "enable-trace" ==>
        && (reply, traceEnabled) == FlagOutcome(TraceLogging, old(traceEnabled), args)
        && showClassName == old(showClassName) && showModName == old(showModName) && levels == old(levels)
      ensures |args| >= 1 && args[0] == "show-mod-name" ==>
        && (reply, showModName) == FlagOutcome(ModNameDisplay, old(showModName), args)
        && showClassName == old(showClassName) && traceEnabled == old(traceEnabled) && levels == old(levels)
      ensures |args| >= 1 && args[0] == "show-class-name" ==>
        && (reply, showClassName) == FlagOutcome(ClassNameDisplay, old(showClassName), args)
        && showModName == old(showModName) && traceEnabled == old(traceEnabled) && levels == old(levels)
      ensures |args| >= 1 && args[0] !in {"log-level", "log-level-list", "enable-trace", "show-mod-name", "show-class-name"} ==>
        reply == UnknownSubcommand(args[0])
    {
      if |args| == 0 {
        return Help;
      }

      if args[0] == "log-level" {
        if |args| == 1 {
          reply := LogLevelUsage;
        } else if |args| == 2 {
          reply := LevelShown(args[1], LoggerLevel(host, traceEnabled, levels, args[1]));
        } else {
          if EqualsIgnoreCase(args[1], ROOT_LOGGER_NAME) {
            return RootLevelLocked;
          }
          if EqualsIgnoreCase(args[2], "clear") {
            SetLoggerLevel(args[1], None);
            reply := LevelCleared(args[1]);
          } else {
            var level := ParseLevel(args[2]);
            if level.None? {
              return InvalidLevel(args[2]);
            }
            SetLoggerLevel(args[1], level);
            reply := LevelSet(args[1], level.value);
          }
        }
      } else if args[0] == "log-level-list" {
        reply := LevelList(levels);
      } else if args[0] == "enable-trace" {
        if |args| == 1 {
          reply := FlagShown(TraceLogging, traceEnabled);
        } else {
          var value := ParseFlag(args[1]);
          if value.None? {
            return FlagUsage(TraceLogging);
          }
          SetTraceEnabled(value.value);
          reply := FlagChanged(TraceLogging, value.value);
        }
      } else if args[0] == "show-mod-name" {
        if |args| == 1 {
          reply := FlagShown(ModNameDisplay, showModName);
        } else {
          var value := ParseFlag(args[1]);
          if value.None? {
            return FlagUsage(ModNameDisplay);
          }
          SetShowModName(value.value);
          reply := FlagChanged(ModNameDisplay, value.value);
        }
      } else if args[0] == "show-class-name" {
        if |args| == 1 {
          reply := FlagShown(ClassNameDisplay, showClassName);
        } else {
          var value := ParseFlag(args[1]);
          if value.None? {
            return FlagUsage(ClassNameDisplay);
          }
          SetShowClassName(value.value);
          reply := FlagChanged(ClassNameDisplay, value.value);
        }
      } else {
        reply := UnknownSubcommand(args[0]);
      }
    }
  }
}
