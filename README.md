# slf4md core, modelled in Dafny

slf4md is an SLF4J provider for the Mindustry game server. This project models the
provider's core:

- **Logger registry and attribution.** `MindustryLoggerFactory` and its plugin-flavour twin
  `SimpleLoggerFactory` keep a name-to-logger cache that starts with the root logger. On a cache
  miss they find an origin class. Either the name is itself a loadable class, and the result is
  cached, or a stack search picks the class, and the result is not cached. The owner of the new
  logger is the display name in the owning mod's metadata file. For a `Mod`/`Plugin` entry class
  that file comes from the class's own loader. Otherwise it comes from the first loader up the
  `getParent()` chain whose parent is a `ModClassLoader`.
- **Per-logger gating and line rendering** (`MindustryLogger`). A level is enabled by comparing arc
  `LogLevel` ordinals with the host's `Log.level`, plus the `loggerTrace` flag for TRACE. A line is
  built in this order: owner and name tags, the error colour, absorption of a trailing throwable
  argument, highlighting of each `{}` placeholder, substitution of the arguments, and the `": "`
  plus stack-trace suffix. It is then handed to arc at the mapped level.
- **Level policy** (`MindustryLoggerMod`). The process-wide display flags and a table of per-logger
  level overrides keyed by lower-cased name. It derives the root level from the host level,
  answers `hasAtLeastLevel`, loads the settings file's parsed contents, and runs the `slf4md` server
  command.

The JVM and Mindustry are plain data in module `Runtime`:

- the classes `Class.forName` finds, each with its supertypes and defining loader;
- the loader parent links, which must be acyclic (a parent has a smaller id than its child);
- which loaders are `ModClassLoader`s;
- what each loader's metadata resources parse to.

A stack trace is the sequence of its frames' class names. For `StackWalker`, it is the sequence of
the frames' declaring classes. arc's `Log.level`, the server `Config` values and the `ColorCodes`
strings are parameters.

Modules: `Wrappers` (Option), `Text` (ASCII case mapping, `startsWith`, `equalsIgnoreCase`),
`Levels` (SLF4J `Level`, arc `LogLevel`), `Runtime`, `MindustryFactory`, `SimpleFactory`,
`LoggerOutput`, `LevelPolicy`.

Two behaviours of the code are modelled as written:

- `tryFindCaller` loops while `i <= stacktrace.length`. With three or more frames, all of them
  from index 3 on in logging packages, it reads one past the end. `getLogger` then throws
  `ArrayIndexOutOfBoundsException`, which is the `IndexOutOfBoundsThrown` outcome.
- The `dropWhile` predicate of `SimpleLoggerFactory` drops frames that are *not* a logging class or
  that lie in a logging package. The selected frame is therefore the first frame that *is*
  `SimpleLoggerFactory` or `LoggerFactory` (or a subclass) outside the logging packages.
  `FactoryFrameIsSelected` shows that the factory's own frame is picked when it comes first.

Two behaviours of the code a reader may not expect:

- The logger's own gating (`isTraceEnabled` … `isErrorEnabled`) does not consult the level-override
  table. Only `hasAtLeastLevel` does. `PolicyAgreesWithLoggerGating` shows that the two agree for
  loggers without an override.
- The `log-level` command refuses the root name. The settings loader, however, stores a `root`
  entry if the file has one, and `getLoggerLevel` never reads it.

## Model

| member | source | states |
|---|---|---|
| Text.Lower | src/main/java/com/xpdustry/slf4md/MindustryLoggerMod.java:137 | `toLowerCase(Locale.ROOT)` keeps the length and lower-cases each character |
| Text.Upper | src/main/java/com/xpdustry/slf4md/MindustryLoggerMod.java:215 | `toUpperCase(Locale.ROOT)` keeps the length and upper-cases each character |
| Text.EqualsIgnoreCase | src/main/java/com/xpdustry/slf4md/MindustryLoggerMod.java:255-259 | `equalsIgnoreCase` holds only for strings of equal length, and every string equals itself ignoring case |
| Text.LowerIdempotent | src/main/java/com/xpdustry/slf4md/MindustryLoggerMod.java:146-150 | a lower-cased key lower-cases to itself, so stored keys stay lower-case |
| Text.EqualsIgnoreCaseIffLower | src/main/java/com/xpdustry/slf4md/MindustryLoggerMod.java:255-259 | `equalsIgnoreCase` holds exactly when both strings lower-case to the same string |
| Text.UpperFollowsLower | src/main/java/com/xpdustry/slf4md/MindustryLoggerMod.java:215 | strings equal up to case upper-case to the same string |
| Levels.ValueOf | src/main/java/com/xpdustry/slf4md/MindustryLoggerMod.java:215-219 | `Level.valueOf` accepts exactly a constant's name and returns that constant; every constant's name is accepted |
| Levels.ParseLevel | src/main/java/com/xpdustry/slf4md/MindustryLoggerMod.java:263-272 | an accepted word upper-cases to the level's name |
| Levels.ParseLevelRoundTrip | src/main/java/com/xpdustry/slf4md/MindustryLoggerMod.java:173-175 | the name `save` writes for a level, in upper or lower case, loads back as that level |
| Levels.ParseLevelIgnoresCase | src/main/java/com/xpdustry/slf4md/MindustryLoggerMod.java:265 | level words equal up to case parse to the same result |
| Runtime.ForName | src/main/java/com/xpdustry/slf4md/MindustryLoggerFactory.java:60 | a class found by name has that name and respects the Mod/Plugin facts |
| Runtime.Chain | src/main/java/com/xpdustry/slf4md/MindustryLoggerFactory.java:89-97 | the loaders met following `getParent()` from a loader until null, each the parent of the one before |
| Runtime.ModRootLoader | src/main/java/com/xpdustry/slf4md/MindustryLoggerFactory.java:91-97 | the walk stops at the first loader on the chain whose parent is a `ModClassLoader`, and finds none only when no loader on the chain has one |
| Runtime.Probe | src/main/java/com/xpdustry/slf4md/MindustryLoggerFactory.java:106-116 | the first file name the loader has decides; later names are not consulted |
| MindustryFactory.ScanFrom | src/main/java/com/xpdustry/slf4md/MindustryLoggerFactory.java:128-141 | from index `i`, the first frame outside the logging packages, or out of bounds when every remaining frame is in one |
| MindustryFactory.FindCaller | src/main/java/com/xpdustry/slf4md/MindustryLoggerFactory.java:126-143 | null exactly for at most 2 frames; out of bounds exactly when there are at least 3 frames and every one from index 3 on is skipped; otherwise the first frame from index 3 on outside `org.slf4j`, `java.util.logging`, `sun.util.logging` |
| MindustryFactory.ModDisplayName | src/main/java/com/xpdustry/slf4md/MindustryLoggerFactory.java:106-124 | no metadata file gives no display name; a display name comes from a metadata file the loader has that parses to it |
| MindustryFactory.Attribute | src/main/java/com/xpdustry/slf4md/MindustryLoggerFactory.java:74-103 | the lookup always returns a logger; it is stored only when the origin was found by name; a `Mod` class is owned by its display name and stored exactly when found by name and it has one; any other class keeps the requested name, is owned by its loader chain's mod and is stored exactly when found by name; only a stored `Mod` logger changes name, to its owner's |
| MindustryFactory.Resolve | src/main/java/com/xpdustry/slf4md/MindustryLoggerFactory.java:56-104 | a stored result comes from a loadable name and is a logger; a returned logger keeps the requested name unless it is a stored `Mod` logger named after its owner; a name that is no class with at most 2 frames gives an unowned logger, not stored; so does a caller frame whose class `Class.forName` cannot load |
| MindustryFactory.StackResolutionIsNeverStored | src/main/java/com/xpdustry/slf4md/MindustryLoggerFactory.java:61-71 | a name that is not a loadable class is never cached, whatever the attribution gives |
| MindustryFactory.ModClassResolution | src/main/java/com/xpdustry/slf4md/MindustryLoggerFactory.java:74-87 | a `Mod` class found by name with display `d` gives a logger named and owned by `d`, cached; without a display name an unowned logger under the requested name, not cached |
| MindustryFactory.LoaderChainResolution | src/main/java/com/xpdustry/slf4md/MindustryLoggerFactory.java:89-103 | a non-`Mod` origin keeps the requested name, is owned by the display name of the chain's mod root loader, and is cached exactly when found by class name |
| MindustryFactory.ModCallerFromStack | src/main/java/com/xpdustry/slf4md/MindustryLoggerFactory.java:79-86 | a `Mod` class found through the stack keeps the requested name, is owned by the mod's display name, and is not cached |
| MindustryFactory.ModWithoutDisplayName | src/main/java/com/xpdustry/slf4md/MindustryLoggerFactory.java:74-87 | a `Mod` class without a display name, found by name or through the stack, gives an unowned logger under the requested name, not cached |
| MindustryFactory.ThrowsIffEveryFrameSkipped | src/main/java/com/xpdustry/slf4md/MindustryLoggerFactory.java:128-133 | `getLogger` throws exactly when the name is no class and the stack has at least 3 frames, all skipped from index 3 on |
| MindustryFactory.FirstMetadataFileDecides | src/main/java/com/xpdustry/slf4md/MindustryLoggerFactory.java:106-124 | the first of `mod.json`, `mod.hjson`, `plugin.json`, `plugin.hjson` present decides the display name, even when it is unreadable |
| MindustryFactory.MindustryLoggerFactory.constructor | src/main/java/com/xpdustry/slf4md/MindustryLoggerFactory.java:44-48 | the cache starts holding only the unowned root logger |
| MindustryFactory.MindustryLoggerFactory.GetLogger | src/main/java/com/xpdustry/slf4md/MindustryLoggerFactory.java:50-104 | a cached name returns its logger and changes nothing; a miss returns the resolution and stores it only when it is marked for caching; the root logger stays cached |
| MindustryFactory.MindustryLoggerFactory.GetModDisplayName | src/main/java/com/xpdustry/slf4md/MindustryLoggerFactory.java:106-124 | the loop over the metadata names gives the display name of the first file present |
| MindustryFactory.MindustryLoggerFactory.TryFindCaller | src/main/java/com/xpdustry/slf4md/MindustryLoggerFactory.java:126-143 | the labelled loop computes the frame search above, including its out-of-bounds read |
| SimpleFactory.LastDot | slf4md-simple/src/main/java/com/xpdustry/slf4md/simple/SimpleLoggerFactory.java:67 | the index of the last `.` in a class name, or -1 |
| SimpleFactory.PackageName | slf4md-simple/src/main/java/com/xpdustry/slf4md/simple/SimpleLoggerFactory.java:67 | `getPackageName` is the part of the class name before its last `.`, and empty when there is no `.` |
| SimpleFactory.SelectCaller | slf4md-simple/src/main/java/com/xpdustry/slf4md/simple/SimpleLoggerFactory.java:64-68 | the first frame the `dropWhile` predicate keeps, and none exactly when it drops every frame |
| SimpleFactory.GetPluginDisplayName | slf4md-simple/src/main/java/com/xpdustry/slf4md/simple/SimpleLoggerFactory.java:107-122 | the display name of `plugin.json`, else `plugin.hjson`; none when neither exists or the file present is unreadable |
| SimpleFactory.Attribute | slf4md-simple/src/main/java/com/xpdustry/slf4md/simple/SimpleLoggerFactory.java:76-104 | a result is stored only when the origin was found by name; a `Plugin` class is owned by its plugin display name and stored exactly when found by name and it has one; any other class keeps the requested name, is owned by its loader chain's mod and is stored exactly when found by name; only a stored `Plugin` logger changes name, to its owner's |
| SimpleFactory.Resolve | slf4md-simple/src/main/java/com/xpdustry/slf4md/simple/SimpleLoggerFactory.java:58-104 | a stored result comes from a loadable name; the logger keeps the requested name unless it is a stored `Plugin` logger named after its owner; with no class by that name and no frame selected the logger is unowned |
| SimpleFactory.SelectedCallerIsLoggingClass | slf4md-simple/src/main/java/com/xpdustry/slf4md/simple/SimpleLoggerFactory.java:66-67 | the selected frame is always assignable to `SimpleLoggerFactory` or `LoggerFactory` and outside the logging packages |
| SimpleFactory.FactoryFrameIsSelected | slf4md-simple/src/main/java/com/xpdustry/slf4md/simple/SimpleLoggerFactory.java:44 | when the innermost frame is `SimpleLoggerFactory` itself, that frame is selected |
| SimpleFactory.LoaderChainResolution | slf4md-simple/src/main/java/com/xpdustry/slf4md/simple/SimpleLoggerFactory.java:90-104 | a non-`Plugin` origin keeps the requested name, is owned by the plugin display name of the chain's mod root loader, and is cached exactly when found by class name |
| SimpleFactory.StackResolutionIsNeverStored | slf4md-simple/src/main/java/com/xpdustry/slf4md/simple/SimpleLoggerFactory.java:63-74 | a name that is not a loadable class is never cached; with no frame selected the logger is unowned |
| SimpleFactory.PluginResolution | slf4md-simple/src/main/java/com/xpdustry/slf4md/simple/SimpleLoggerFactory.java:76-88 | a `Plugin` class with display `d` gives a logger named `d` and cached when found by name, and the requested name owned by `d`, not cached, when found through the stack |
| SimpleFactory.PluginWithoutDisplayName | slf4md-simple/src/main/java/com/xpdustry/slf4md/simple/SimpleLoggerFactory.java:76-80 | a `Plugin` class without a display name, found by name or through the stack, gives an unowned logger under the requested name, not cached |
| SimpleFactory.SimpleLoggerFactory.constructor | slf4md-simple/src/main/java/com/xpdustry/slf4md/simple/SimpleLoggerFactory.java:46-50 | the cache starts holding only the unowned root logger |
| SimpleFactory.SimpleLoggerFactory.GetLogger | slf4md-simple/src/main/java/com/xpdustry/slf4md/simple/SimpleLoggerFactory.java:52-105 | a cached name returns its logger and changes nothing; a miss returns the resolution and stores it only when it is marked for caching; the root logger stays cached |
| LoggerOutput.GetArcLogLevel | src/main/java/com/xpdustry/slf4md/MindustryLogger.java:174-187 | every SLF4J level maps to an arc level other than `none` |
| LoggerOutput.IsArcLogLevelAtLeast | src/main/java/com/xpdustry/slf4md/MindustryLogger.java:170-172 | host `none` or level `none` never passes; host `debug` passes every level but `none`; `err` passes exactly when the host is not `none` |
| LoggerOutput.IsTraceEnabled | src/main/java/com/xpdustry/slf4md/MindustryLogger.java:60-68 | trace is enabled exactly when debug is and `loggerTrace` is set |
| LoggerOutput.IsDebugEnabled | src/main/java/com/xpdustry/slf4md/MindustryLogger.java:70-78 | debug is enabled exactly for host `debug`, and then info is too |
| LoggerOutput.IsInfoEnabled | src/main/java/com/xpdustry/slf4md/MindustryLogger.java:80-88 | info is enabled exactly for host `debug` or `info`, and then warn is too |
| LoggerOutput.IsWarnEnabled | src/main/java/com/xpdustry/slf4md/MindustryLogger.java:90-98 | warn is disabled exactly for host `err` or `none`; when enabled, error is too |
| LoggerOutput.IsErrorEnabled | src/main/java/com/xpdustry/slf4md/MindustryLogger.java:100-108 | error is disabled exactly for host `none` |
| LoggerOutput.GetColorCode | src/main/java/com/xpdustry/slf4md/MindustryLogger.java:189-202 | the colour follows the mapped arc level (light cyan for debug, light blue for info, light yellow for warn, light red for err) and is always followed by bold |
| LoggerOutput.EnabledIffArcLevelPasses | src/main/java/com/xpdustry/slf4md/MindustryLogger.java:60-108 | a level is enabled exactly when arc lets its mapped level through, and TRACE also needs `loggerTrace` |
| LoggerOutput.EnablementNested | src/main/java/com/xpdustry/slf4md/MindustryLogger.java:169-172 | trace is debug plus the flag; debug implies info implies warn implies error; error is off exactly when the host level is `none` |
| LoggerOutput.ColorFollowsArcLevel | src/main/java/com/xpdustry/slf4md/MindustryLogger.java:189-202 | levels that map to the same arc level get the same colour |
| LoggerOutput.ArgTexts | src/main/java/com/xpdustry/slf4md/MindustryLogger.java:155 | each argument is rendered by its text, in order |
| LoggerOutput.Absorb | src/main/java/com/xpdustry/slf4md/MindustryLogger.java:147-153 | without an explicit throwable, a trailing throwable argument becomes the throwable and the rest keep their order, a single one leaving null; otherwise nothing changes; no argument is lost |
| LoggerOutput.Highlight | src/main/java/com/xpdustry/slf4md/MindustryLogger.java:155 | the rewritten pattern is empty only when the pattern is, and never starts with a `}` the pattern did not start with |
| LoggerOutput.HighlightKeepsPlaceholders | src/main/java/com/xpdustry/slf4md/MindustryLogger.java:155 | rewriting `{}` to `&fb&lb{}&fr` keeps the number of placeholders |
| LoggerOutput.PlaceholdersHighlighted | src/main/java/com/xpdustry/slf4md/MindustryLogger.java:155 | the highlight markup `&fb&lb{}&fr` holds exactly one placeholder |
| LoggerOutput.Format | src/main/java/com/xpdustry/slf4md/MindustryLogger.java:155 | with no arguments the pattern is copied unchanged |
| LoggerOutput.FormatWithoutPlaceholders | src/main/java/com/xpdustry/slf4md/MindustryLogger.java:155 | a pattern without placeholders ignores its arguments |
| LoggerOutput.FormatLiteralPrefix | src/main/java/com/xpdustry/slf4md/MindustryLogger.java:155 | text without `{` is copied and does not shift the substitution after it |
| LoggerOutput.PlaceholdersLiteralPrefix | src/main/java/com/xpdustry/slf4md/MindustryLogger.java:155 | text without `{` adds no placeholder |
| LoggerOutput.FormatHighlightedPlaceholder | src/main/java/com/xpdustry/slf4md/MindustryLogger.java:155 | a highlighted placeholder takes the next argument inside the markup, or stays as it is when none is left |
| LoggerOutput.FormatHighlighted | src/main/java/com/xpdustry/slf4md/MindustryLogger.java:155 | formatting the highlighted pattern equals formatting the original with each argument wrapped in `&fb&lb`…`&fr`, unfilled placeholders keeping the markup |
| LoggerOutput.FormatHighlightedWithEnoughArguments | src/main/java/com/xpdustry/slf4md/MindustryLogger.java:155 | with an argument for every placeholder, each appears wrapped in the highlight markup |
| LoggerOutput.Prefix | src/main/java/com/xpdustry/slf4md/MindustryLogger.java:124-141 | the root logger, or a logger showing no tag, has an empty prefix; a non-empty prefix starts with the level's colour and `[`; a non-root prefix is exactly as long as the owner tag when there is an owner and the mod flag is true plus the name tag when the class flag is true |
| LoggerOutput.RenderedLine | src/main/java/com/xpdustry/slf4md/MindustryLogger.java:122-162 | the line starts with the tags and error colour; with an explicit throwable, or a trailing throwable argument and none explicit, it ends with `": "` and that throwable's stack trace |
| LoggerOutput.PrefixShowsEnabledTags | src/main/java/com/xpdustry/slf4md/MindustryLogger.java:124-141 | no tags on the root logger; the owner tag first when there is an owner and the mod flag is boolean true; the name tag last when the class flag is boolean true; no prefix otherwise; the prefix is exactly as long as the tags whose flags are on, so a tag whose flag is off is absent |
| LoggerOutput.RootLoggerHasNoTags | src/main/java/com/xpdustry/slf4md/MindustryLogger.java:124 | before the message body, the root logger's line holds only the error colour, if any |
| LoggerOutput.TrailingThrowableBecomesStackTrace | src/main/java/com/xpdustry/slf4md/MindustryLogger.java:147-162 | a trailing throwable argument is not formatted; the other arguments are, and its stack trace ends the line after `": "` |
| LoggerOutput.ExplicitThrowableKeepsArguments | src/main/java/com/xpdustry/slf4md/MindustryLogger.java:147-162 | with an explicit throwable every argument is formatted and its stack trace ends the line |
| LoggerOutput.NoThrowableNoStackTrace | src/main/java/com/xpdustry/slf4md/MindustryLogger.java:147-162 | without any throwable the line ends with the formatted message |
| LoggerOutput.TwoArgumentsAreHighlightedInBody | src/main/java/com/xpdustry/slf4md/MindustryLogger.java:155 | the pattern `{} plus {}` formatted with 1 and 2 after highlighting gives `&fb&lb1&fr plus &fb&lb2&fr` |
| LoggerOutput.TwoArgumentsAreHighlighted | src/main/java/com/xpdustry/slf4md/MindustryLogger.java:155 | `"{} plus {}"` with 1 and 2 on the root logger at INFO renders as `&fb&lb1&fr plus &fb&lb2&fr` |
| LoggerOutput.HandleNormalizedLoggingCall | src/main/java/com/xpdustry/slf4md/MindustryLogger.java:115-167 | the builder's steps produce the rendered line (tags, error colour, highlighted and substituted message, stack trace) and the mapped arc level |
| LevelPolicy.RootLoggerLevel | src/main/java/com/xpdustry/slf4md/MindustryLoggerMod.java:120-134 | the root level is absent exactly for host `none`; otherwise it maps back to the host level, and it is TRACE exactly for host `debug` with trace enabled |
| LevelPolicy.WithLevel | src/main/java/com/xpdustry/slf4md/MindustryLoggerMod.java:145-153 | setting or clearing a level touches only the lower-cased name |
| LevelPolicy.EntryLevel | src/main/java/com/xpdustry/slf4md/MindustryLoggerMod.java:210-219 | only a string value naming a level, in any case, gives a level, and every such string gives the level it names |
| LevelPolicy.LoggerLevel | src/main/java/com/xpdustry/slf4md/MindustryLoggerMod.java:136-143 | any casing of the root name reads the derived root level; any other name reads its lower-cased override, and none exactly when it has none |
| LevelPolicy.HasAtLeastLevel | src/main/java/com/xpdustry/slf4md/MindustryLoggerMod.java:155-164 | with an override the level passes exactly when its `toInt` reaches the override's; otherwise it passes exactly when the host is not `none` and it reaches the root level |
| LevelPolicy.BoolSetting | src/main/java/com/xpdustry/slf4md/MindustryLoggerMod.java:195-206 | a boolean entry sets the flag to its value; the flag changes only to the value of a boolean entry under its key |
| LevelPolicy.LoadedLevels | src/main/java/com/xpdustry/slf4md/MindustryLoggerMod.java:207-222 | loading keeps every key of the table and adds only the lower-cased keys of valid entries |
| LevelPolicy.LoadedLevelsStep | src/main/java/com/xpdustry/slf4md/MindustryLoggerMod.java:210-221 | one more entry stores its level under its lower-cased key when valid and changes nothing otherwise |
| LevelPolicy.LoadedLevelsUntouched | src/main/java/com/xpdustry/slf4md/MindustryLoggerMod.java:207-222 | a key no valid entry names keeps what the table had |
| LevelPolicy.LoadedLevelsLastWins | src/main/java/com/xpdustry/slf4md/MindustryLoggerMod.java:207-222 | the last valid entry for a lower-cased key decides its level |
| LevelPolicy.LoadedLevelsLowerCase | src/main/java/com/xpdustry/slf4md/MindustryLoggerMod.java:220 | loading stores only lower-case keys |
| LevelPolicy.ParseFlag | src/main/java/com/xpdustry/slf4md/MindustryLoggerMod.java:296-301 | a flag argument is accepted exactly when it is `true` or `false` in any case, and means true exactly for `true` |
| LevelPolicy.LogLevelOutcome | src/main/java/com/xpdustry/slf4md/MindustryLoggerMod.java:244-277 | the table changes only when a level is cleared or set; clearing removes and setting stores the lower-cased name, never the root's; the root is refused exactly when three or more arguments name it in any case |
| LevelPolicy.FlagOutcome | src/main/java/com/xpdustry/slf4md/MindustryLoggerMod.java:290-339 | the flag is reported changed exactly when an argument parses as a boolean, and then takes that value; any change of the flag is reported as such |
| LevelPolicy.RootCheckAgreesWithLookup | src/main/java/com/xpdustry/slf4md/MindustryLoggerMod.java:255 | the command's root test matches exactly the names the lookup treats as root |
| LevelPolicy.LogLevelCommandSparesRoot | src/main/java/com/xpdustry/slf4md/MindustryLoggerMod.java:255-275 | the `log-level` command never adds, changes or removes an override under the root key |
| LevelPolicy.RootLevelIsLocked | src/main/java/com/xpdustry/slf4md/MindustryLoggerMod.java:255-258 | targeting the root name in any case is refused and leaves the table |
| LevelPolicy.ClearRemovesOverride | src/main/java/com/xpdustry/slf4md/MindustryLoggerMod.java:259-261 | `clear` in any case removes exactly that logger's override, and every casing of its name then reads none |
| LevelPolicy.InvalidLevelLeavesTable | src/main/java/com/xpdustry/slf4md/MindustryLoggerMod.java:262-272 | a word that is neither `clear` nor a level is refused and leaves the table |
| LevelPolicy.SetLevelIsReadBack | src/main/java/com/xpdustry/slf4md/MindustryLoggerMod.java:273-274 | a valid level is stored and every casing of the logger's name reads it back |
| LevelPolicy.FlagChangesOnlyOnBoolean | src/main/java/com/xpdustry/slf4md/MindustryLoggerMod.java:290-305 | a flag subcommand changes its flag only on `true`/`false` in any case; otherwise it reports usage or shows the flag |
| LevelPolicy.LoggerLevelIgnoresCase | src/main/java/com/xpdustry/slf4md/MindustryLoggerMod.java:136-143 | every casing of a logger name reads the same level |
| LevelPolicy.OverrideTakesPrecedence | src/main/java/com/xpdustry/slf4md/MindustryLoggerMod.java:155-164 | an override alone decides `hasAtLeastLevel`, by comparing `toInt` values |
| LevelPolicy.HasAtLeastLevelMonotone | src/main/java/com/xpdustry/slf4md/MindustryLoggerMod.java:163 | a level that passes lets every more severe level pass |
| LevelPolicy.SilentHostWithoutOverride | src/main/java/com/xpdustry/slf4md/MindustryLoggerMod.java:155-164 | with host level `none` and no override, nothing passes, not even ERROR |
| LevelPolicy.PolicyAgreesWithLoggerGating | src/main/java/com/xpdustry/slf4md/MindustryLoggerMod.java:120-164 | without an override, `hasAtLeastLevel` agrees with the logger's own gating when `loggerTrace` equals the trace flag |
| LevelPolicy.MindustryLoggerMod.constructor | src/main/java/com/xpdustry/slf4md/MindustryLoggerMod.java:50-53 | class name hidden, mod name shown, trace off, no overrides |
| LevelPolicy.MindustryLoggerMod.SetShowClassName | src/main/java/com/xpdustry/slf4md/MindustryLoggerMod.java:97-100 | sets that flag and nothing else |
| LevelPolicy.MindustryLoggerMod.SetShowModName | src/main/java/com/xpdustry/slf4md/MindustryLoggerMod.java:106-109 | sets that flag and nothing else |
| LevelPolicy.MindustryLoggerMod.SetTraceEnabled | src/main/java/com/xpdustry/slf4md/MindustryLoggerMod.java:115-118 | sets that flag and nothing else |
| LevelPolicy.MindustryLoggerMod.SetLoggerLevel | src/main/java/com/xpdustry/slf4md/MindustryLoggerMod.java:145-153 | the table changes only at the lower-cased name, and keys stay lower-case |
| LevelPolicy.MindustryLoggerMod.Load | src/main/java/com/xpdustry/slf4md/MindustryLoggerMod.java:183-223 | a missing file changes nothing; a boolean flag value replaces the flag, anything else leaves it; the level entries are loaded in order |
| LevelPolicy.MindustryLoggerMod.LoadLevels | src/main/java/com/xpdustry/slf4md/MindustryLoggerMod.java:207-222 | the `log-levels` loop leaves the table as the entries load it and leaves the flags |
| LevelPolicy.MindustryLoggerMod.RunCommand | src/main/java/com/xpdustry/slf4md/MindustryLoggerMod.java:225-346 | the `slf4md` command dispatches to the `log-level` and flag outcomes, lists the table, and changes nothing for help, listing or an unknown subcommand |

## Left out

- `MindustryLoggerService`: SLF4J service-provider glue that only returns fixed objects.
- `build.gradle.kts`: build configuration.
- `Class.forName`, the class-loader hierarchy, `Thread.getStackTrace`, `StackWalker`, `Json().fromJson` and `ModMeta.cleanup`: these are library and host behaviour, so they are the abstract data of module `Runtime`.
- `save`, the file reading of `load`, `Jval` parsing and `Vars.modDirectory`: file I/O. `Load` takes the parsed top-level object, or none for a missing or unreadable file. A top-level value that is not an object is not modelled.
- The static initializer of `MindustryLoggerMod`: context-class-loader swapping, the factory-type check and the JUL bridge installation are global side effects.
- The wording of the `slf4md` command's help and feedback messages. `Reply` records only which outcome was reported.
- `MessageFormatter.basicArrayFormat` is an SLF4J library call. `Format` is plain positional `{}` substitution. It has no `\{` escapes and no deep rendering of array arguments.
- `printStackTrace` output and the `ColorCodes` values are opaque strings: `Failure.stackTrace` and the `Palette` fields.
- Arc's `Log.log` is not modelled. `HandleNormalizedLoggingCall` returns the level and line it would pass on.
- `WRITE_LOCK` and the `ConcurrentHashMap`s: concurrency. Everything is single-threaded.
- The `AbstractLogger` dispatch that decides when `handleNormalizedLoggingCall` runs is SLF4J library code. The `Marker` parameter is unused, so it is not modelled.
- A null message pattern: `messagePattern.replace` throws a `NullPointerException` out of the logging call (for example `logger.info((String) null)`); that error path is not modelled, and `pattern` is always a string.
- Text.Lower: maps only ASCII letters, where `toLowerCase(Locale.ROOT)` maps all of Unicode.
- Text.Upper: maps only ASCII letters, where `toUpperCase(Locale.ROOT)` maps all of Unicode.
- Text.EqualsIgnoreCase: compares ASCII letters without case and every other character exactly, where `equalsIgnoreCase` also folds non-ASCII letters.
- Text.EqualsIgnoreCaseIffLower: holds for the ASCII mapping only. In Java, `"İ".equalsIgnoreCase("i")` is true while the `toLowerCase(Locale.ROOT)` forms of the two differ.
- Runtime.ClassWellFormed: a `Mod` or `Plugin` class defined by the bootstrap (null) loader is excluded from well-formed worlds, so `getLogger`'s behaviour for one (a null loader passed to the metadata lookup) is not modelled.
- The `log-level-list` order is the map's iteration order. `Reply.LevelList` holds the table as a map.
