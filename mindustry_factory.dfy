/**
 * `MindustryLoggerFactory`: the name-to-logger cache of the SLF4J
 * provider, and how it attributes a new logger to the mod that owns the
 * code asking for it.
 */
module MindustryFactory {
  import opened Wrappers
  import opened Text
  import opened Runtime

  /** Packages whose frames are logging wrappers, never the caller. */
  const LOGGING_PACKAGES: seq<string> := ["org.slf4j", "java.util.logging", "sun.util.logging"]
  /** Metadata files probed in a mod's loader, in this order. */
  const MOD_METADATA_NAMES: seq<string> := ["mod.json", "mod.hjson", "plugin.json", "plugin.hjson"]

  /** The class name starts with one of the logging packages. */
  predicate InLoggingPackage(className: string)
  {
    exists k :: 0 <= k < |LOGGING_PACKAGES| && StartsWith(className, LOGGING_PACKAGES[k])
  }

  /** What the stack search gives. */
  datatype CallerSearch =
    | Caller(className: string)
    | NoCaller       // returns null
    | OutOfBounds    // `stacktrace[i]` with `i == stacktrace.length` throws

  /** The search from index `i` on, once the first three frames are behind it. */
  function ScanFrom(stack: seq<string>, i: nat): (r: CallerSearch)
    requires 3 <= i <= |stack|
    ensures r != NoCaller
    ensures r == OutOfBounds <==> forall k :: i <= k < |stack| ==> InLoggingPackage(stack[k])
    ensures r.Caller? ==>
      exists k :: i <= k < |stack| && stack[k] == r.className && !InLoggingPackage(stack[k])
        && forall j :: i <= j < k ==> InLoggingPackage(stack[j])
    decreases |stack| - i
  {
    if i == |stack| then OutOfBounds
    else if !InLoggingPackage(stack[i]) then Caller(stack[i])
    else ScanFrom(stack, i + 1)
  }

  /**
   * `tryFindCaller` as written: frames 0 to 2 are skipped, then the first
   * frame outside the logging packages is the caller. The loop bound `<=`
   * makes it read one past the end when every later frame is skipped.
   */
  function FindCaller(stack: seq<string>): (r: CallerSearch)
    ensures r == NoCaller <==> |stack| <= 2
    ensures r == OutOfBounds <==> |stack| >= 3 && forall k :: 3 <= k < |stack| ==> InLoggingPackage(stack[k])
    ensures r.Caller? ==>
      exists k :: 3 <= k < |stack| && stack[k] == r.className && !InLoggingPackage(stack[k])
        && forall j :: 3 <= j < k ==> InLoggingPackage(stack[j])
  {
    if |stack| <= 2 then NoCaller else ScanFrom(stack, 3)
  }

  /** `getModDisplayName`: the display name in the first metadata file the loader has. */
  function ModDisplayName(w: World, loader: LoaderId): (r: Option<string>)
    ensures (forall i :: 0 <= i < |MOD_METADATA_NAMES| ==> (loader, MOD_METADATA_NAMES[i]) !in w.resources) ==> r.None?
    ensures r.Some? ==>
      exists i :: 0 <= i < |MOD_METADATA_NAMES| && (loader, MOD_METADATA_NAMES[i]) in w.resources
        && w.resources[(loader, MOD_METADATA_NAMES[i])] == Parsed(r)
  {
    DisplayNameOf(Probe(w, loader, MOD_METADATA_NAMES))
  }

  /** What `getLogger` returns: a logger, or the exception that escapes it. */
  datatype Lookup =
    | Returned(logger: LoggerEntry)
    | IndexOutOfBoundsThrown

  /** The result of a cache miss, and whether it is put into the cache. */
  datatype Resolution = Resolution(result: Lookup, store: bool)

  /** Owner of a class that is not a mod entry class: its loader chain's mod root, if any. */
  function LoaderOwner(w: World, c: ClassInfo): Option<string>
    requires LoadersAcyclic(w)
  {
    match ModRootLoader(w, c.loader)
    case None => None
    case Some(l) => ModDisplayName(w, l)
  }

  /** Lines 74-103: attribution of an origin class, `cache` telling how it was found. */
  function Attribute(w: World, c: ClassInfo, name: string, cache: bool): (r: Resolution)
    requires LoadersAcyclic(w) && ClassWellFormed(c)
    ensures r.result.Returned?
    ensures r.store ==> cache
    ensures r.result.logger.name == name || (r.store && r.result.logger.owner == Some(r.result.logger.name))
    ensures IsAssignableTo(c, MOD_CLASS) ==>
      (r.store <==> cache && ModDisplayName(w, c.loader.value).Some?)
      && r.result.logger.owner == ModDisplayName(w, c.loader.value)
    ensures !IsAssignableTo(c, MOD_CLASS) ==> r == Resolution(Returned(LoggerEntry(name, LoaderOwner(w, c))), cache)
  {
    if IsAssignableTo(c, MOD_CLASS) then
      match ModDisplayName(w, c.loader.value)
      case None => Resolution(Returned(LoggerEntry(name, None)), false)
      case Some(d) =>
        Resolution(Returned(if cache then LoggerEntry(d, Some(d)) else LoggerEntry(name, Some(d))), cache)
    else
      Resolution(Returned(LoggerEntry(name, LoaderOwner(w, c))), cache)
  }

  /** What `getLogger(name)` does on a cache miss. */
  function Resolve(w: World, stack: seq<string>, name: string): (r: Resolution)
    requires WellFormed(w)
    ensures r.store ==> ForName(w, name).Some? && r.result.Returned?
    ensures r.result.Returned? ==>
      r.result.logger.name == name || (r.store && r.result.logger.owner == Some(r.result.logger.name))
    ensures ForName(w, name).None? && |stack| <= 2 ==> r == Resolution(Returned(LoggerEntry(name, None)), false)
    ensures ForName(w, name).None? && FindCaller(stack).Caller? && ForName(w, FindCaller(stack).className).None?
      ==> r == Resolution(Returned(LoggerEntry(name, None)), false)
  {
    match ForName(w, name)
    case Some(c) => Attribute(w, c, name, true)
    case None =>
      match FindCaller(stack)
      case NoCaller => Resolution(Returned(LoggerEntry(name, None)), false)
      case OutOfBounds => Resolution(IndexOutOfBoundsThrown, false)
      case Caller(candidate) =>
        match ForName(w, candidate)
        case None => Resolution(Returned(LoggerEntry(name, None)), false)
        case Some(c) => Attribute(w, c, name, false)
  }

  /** A name that is not a loadable class is resolved from the stack and never cached. */
  lemma StackResolutionIsNeverStored(w: World, stack: seq<string>, name: string)
    requires WellFormed(w) && ForName(w, name).None?
    ensures !Resolve(w, stack, name).store
  {
  }

  /**
   * A name that is itself a mod entry class: with a display name `d` the
   * logger is named and owned by `d` and cached; without one it is an
   * unowned logger under the requested name, not cached.
   */
  lemma ModClassResolution(w: World, stack: seq<string>, name: string)
    requires WellFormed(w) && ForName(w, name).Some? && IsAssignableTo(ForName(w, name).value, MOD_CLASS)
    ensures var d := ModDisplayName(w, ForName(w, name).value.loader.value);
      Resolve(w, stack, name) ==
        if d.Some? then Resolution(Returned(LoggerEntry(d.value, d)), true)
        else Resolution(Returned(LoggerEntry(name, None)), false)
  {
  }

  /**
   * Any other origin keeps the requested name; its owner is the display
   * name of the first loader up the chain whose parent is a
   * `ModClassLoader`, or none when the chain ends first. The logger is
   * cached exactly when the origin was found by its class name.
   */
  lemma LoaderChainResolution(w: World, stack: seq<string>, name: string, c: ClassInfo)
    requires WellFormed(w) && !IsAssignableTo(c, MOD_CLASS)
    requires ForName(w, name) == Some(c)
      || (ForName(w, name).None? && FindCaller(stack).Caller? && ForName(w, FindCaller(stack).className) == Some(c))
    ensures Resolve(w, stack, name).result == Returned(LoggerEntry(name, LoaderOwner(w, c)))
    ensures Resolve(w, stack, name).store <==> ForName(w, name).Some?
    ensures LoaderOwner(w, c).Some? ==> ModRootLoader(w, c.loader).Some?
  {
  }

  /**
   * A mod entry class found through the stack: the requested name is
   * kept, the mod's display name becomes the owner, nothing is cached.
   */
  lemma ModCallerFromStack(w: World, stack: seq<string>, name: string)
    requires WellFormed(w) && ForName(w, name).None? && FindCaller(stack).Caller?
    requires var c := ForName(w, FindCaller(stack).className);
      c.Some? && IsAssignableTo(c.value, MOD_CLASS) && ModDisplayName(w, c.value.loader.value).Some?
    ensures var c := ForName(w, FindCaller(stack).className).value;
      Resolve(w, stack, name) == Resolution(Returned(LoggerEntry(name, ModDisplayName(w, c.loader.value))), false)
  {
  }

  /**
   * `getLogger` throws exactly when the name is not a class, there are at
   * least three frames, and every frame from index 3 on is in a logging
   * package.
   */
  lemma ThrowsIffEveryFrameSkipped(w: World, stack: seq<string>, name: string)
    requires WellFormed(w)
    ensures Resolve(w, stack, name).result == IndexOutOfBoundsThrown <==>
      ForName(w, name).None? && |stack| >= 3 && forall k :: 3 <= k < |stack| ==> InLoggingPackage(stack[k])
  {
  }

  /**
   * The first metadata file present decides: an unreadable one gives no
   * display name even when a later file would parse.
   */
  lemma FirstMetadataFileDecides(w: World, loader: LoaderId, i: nat)
    requires i < |MOD_METADATA_NAMES| && (loader, MOD_METADATA_NAMES[i]) in w.resources
    requires forall j :: 0 <= j < i ==> (loader, MOD_METADATA_NAMES[j]) !in w.resources
    ensures ModDisplayName(w, loader) == DisplayNameOf(Some(w.resources[(loader, MOD_METADATA_NAMES[i])]))
  {
  }

  /**
   * A mod entry class without a display name gives an unowned logger
   * under the requested name, not cached, however it was found.
   */
  lemma ModWithoutDisplayName(w: World, stack: seq<string>, name: string, c: ClassInfo)
    requires WellFormed(w) && IsAssignableTo(c, MOD_CLASS) && ClassWellFormed(c) && ModDisplayName(w, c.loader.value).None?
    requires ForName(w, name) == Some(c)
      || (ForName(w, name).None? && FindCaller(stack).Caller? && ForName(w, FindCaller(stack).className) == Some(c))
    ensures Resolve(w, stack, name) == Resolution(Returned(LoggerEntry(name, None)), false)
  {
  }

  class MindustryLoggerFactory {
    var loggers: map<string, LoggerEntry>

    /** The root logger is always cached, unowned. */
    ghost predicate Valid()
      reads this
    {
      ROOT_LOGGER_NAME in loggers && loggers[ROOT_LOGGER_NAME] == RootEntry()
    }

    constructor ()
      ensures Valid()
      ensures loggers == map[ROOT_LOGGER_NAME := RootEntry()]
    {
      loggers := map[ROOT_LOGGER_NAME := RootEntry()];
    }

    /**
     * `getLogger(name)` with the classes, loaders and resources in `w` and
     * the class names of the current thread's stack trace in `stack`.
     */
    method GetLogger(w: World, stack: seq<string>, name: string) returns (r: Lookup)
      requires Valid() && WellFormed(w)
      modifies this
      ensures Valid()
      ensures name in old(loggers) ==> r == Returned(old(loggers)[name]) && loggers == old(loggers)
      ensures name !in old(loggers) ==>
        var res := Resolve(w, stack, name);
        r == res.result && loggers == (if res.store then old(loggers)[name := r.logger] else old(loggers))
      ensures name in loggers ==> r == Returned(loggers[name])
    {
      if name in loggers {
        return Returned(loggers[name]);
      }

      var caller: ClassInfo;
      var cache := true;

      var byName := ForName(w, name);
      if byName.Some? {
        caller := byName.value;
      } else {
        var candidate := TryFindCaller(stack);
        match candidate {
          case NoCaller =>
            return Returned(LoggerEntry(name, None));
          case OutOfBounds =>
            return IndexOutOfBoundsThrown;
          case Caller(className) =>
            var found := ForName(w, className);
            if found.None? {
              return Returned(LoggerEntry(name, None));
            }
            caller := found.value;
            cache := false;
        }
      }

      if IsAssignableTo(caller, MOD_CLASS) {
        var display := GetModDisplayName(w, caller.loader.value);
        if display.None? {
          return Returned(LoggerEntry(name, None));
        }
        var logger := if cache then LoggerEntry(display.value, display) else LoggerEntry(name, display);
        if cache {
          loggers := loggers[name := logger];
        }
        return Returned(logger);
      }

      var loader := caller.loader;
      var display: Option<string> := None;
      while loader.Some?
        invariant ModRootLoader(w, loader) == ModRootLoader(w, caller.loader)
        invariant display == None
        decreases LoaderRank(loader)
      {
        var p := Parent(w, loader.value);
        if p.Some? && p.value in w.modClassLoaders {
          display := GetModDisplayName(w, loader.value);
          break;
        }
        loader := p;
      }

      var logger := LoggerEntry(name, display);
      if cache {
        loggers := loggers[name := logger];
      }
      r := Returned(logger);
    }

    /** `getModDisplayName(loader)`: probe the metadata files in order, stop at the first present. */
    method GetModDisplayName(w: World, loader: LoaderId) returns (display: Option<string>)
      ensures display == ModDisplayName(w, loader)
    {
      var resource: Option<Metadata> := None;
      for k := 0 to |MOD_METADATA_NAMES|
        invariant resource == None
        invariant forall j :: 0 <= j < k ==> (loader, MOD_METADATA_NAMES[j]) !in w.resources
      {
        if (loader, MOD_METADATA_NAMES[k]) in w.resources {
          resource := Some(w.resources[(loader, MOD_METADATA_NAMES[k])]);
          break;
        }
      }
      if resource.None? {
        return None;
      }
      match resource.value {
        case Unreadable => display := None;
        case Parsed(d) => display := d;
      }
    }

    /** `tryFindCaller(stacktrace)`, loop bound included. */
    method TryFindCaller(stack: seq<string>) returns (r: CallerSearch)
      ensures r == FindCaller(stack)
    {
      label scan:
      for i := 0 to |stack| + 1
        invariant i <= 3 || i <= |stack|
        invariant forall k :: 3 <= k < i ==> InLoggingPackage(stack[k])
      {
        if i < 3 {
          continue;
        }
        if i == |stack| {
          return OutOfBounds;
        }
        var name := stack[i];
        for j := 0 to |LOGGING_PACKAGES|
          invariant forall k :: 0 <= k < j ==> !StartsWith(name, LOGGING_PACKAGES[k])
        {
          if StartsWith(name, LOGGING_PACKAGES[j]) {
            continue scan;
          }
        }
        return Caller(name);
      }
      return NoCaller;
    }
  }
}
