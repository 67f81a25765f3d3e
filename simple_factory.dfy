/**
 * `SimpleLoggerFactory` of the plugin flavour: the same cache as the mod
 * flavour, but the stack is searched with `StackWalker` and ownership is
 * read from plugin metadata only.
 */
module SimpleFactory {
  import opened Wrappers
  import opened Text
  import opened Runtime

  const LOGGING_PACKAGES: seq<string> := ["org.slf4j", "java.util.logging", "sun.util.logging"]
  /** The package this factory is declared in. */
  const SIMPLE_PACKAGE: string := "com.xpdustry.slf4md.simple"
  const SIMPLE_LOGGER_FACTORY: string := SIMPLE_PACKAGE + ".SimpleLoggerFactory"
  const SLF4J_LOGGER_FACTORY: string := "org.slf4j.LoggerFactory"
  /** The classes whose frames the stack filter refers to. */
  const LOGGING_CLASSES: seq<string> := [SIMPLE_LOGGER_FACTORY, SLF4J_LOGGER_FACTORY]

  /** Index of the last '.' in a class name, -1 when there is none. */
  function LastDot(n: string): (i: int)
    ensures -1 <= i < |n|
    ensures i >= 0 ==> n[i] == '.'
    ensures forall j :: i < j < |n| ==> n[j] != '.'
  {
    if n == [] then -1
    else if n[|n| - 1] == '.' then |n| - 1
    else LastDot(n[..|n| - 1])
  }

  /** `Class.getPackageName()`: what precedes the last '.', or "" for the unnamed package. */
  function PackageName(className: string): (p: string)
    ensures StartsWith(className, p)
    ensures '.' in className ==> |p| < |className| && className[|p|] == '.'
    ensures forall j :: |p| < j < |className| ==> className[j] != '.'
    ensures '.' !in className ==> p == ""
  {
    var i := LastDot(className);
    if i < 0 then "" else className[..i]
  }

  /** Some class of `LOGGING_CLASSES` is assignable from `c`. */
  predicate IsLoggingClass(c: ClassInfo)
  {
    exists k :: 0 <= k < |LOGGING_CLASSES| && IsAssignableTo(c, LOGGING_CLASSES[k])
  }

  /** The package of `c` starts with a logging package. */
  predicate InLoggingPackage(c: ClassInfo)
  {
    exists k :: 0 <= k < |LOGGING_PACKAGES| && StartsWith(PackageName(c.name), LOGGING_PACKAGES[k])
  }

  /** The `dropWhile` predicate as written: no logging class matches, or the package is a logging one. */
  predicate Dropped(c: ClassInfo)
  {
    !IsLoggingClass(c) || InLoggingPackage(c)
  }

  /**
   * `map(getDeclaringClass).dropWhile(Dropped).findFirst()` over the
   * declaring classes of the frames, innermost first: the first frame
   * that IS a logging class and lies outside the logging packages.
   */
  function SelectCaller(frames: seq<ClassInfo>): (r: Option<ClassInfo>)
    ensures r.None? <==> forall k :: 0 <= k < |frames| ==> Dropped(frames[k])
    ensures r.Some? ==>
      exists k :: 0 <= k < |frames| && frames[k] == r.value && !Dropped(frames[k])
        && forall j :: 0 <= j < k ==> Dropped(frames[j])
  {
    if frames == [] then None
    else if Dropped(frames[0]) then
      var r := SelectCaller(frames[1..]);
      assert forall k :: 0 <= k < |frames| - 1 ==> frames[1..][k] == frames[k + 1];
      r
    else Some(frames[0])
  }

  /** The result of a cache miss, and whether it is put into the cache. */
  datatype Resolution = Resolution(result: LoggerEntry, store: bool)

  /** `getPluginDisplayName`: `plugin.json`, else `plugin.hjson`, parsed. */
  function GetPluginDisplayName(w: World, loader: LoaderId): (r: Option<string>)
    ensures r == DisplayNameOf(Probe(w, loader, ["plugin.json", "plugin.hjson"]))
  {
    var resource: Option<Metadata> :=
      if (loader, "plugin.json") in w.resources then Some(w.resources[(loader, "plugin.json")])
      else if (loader, "plugin.hjson") in w.resources then Some(w.resources[(loader, "plugin.hjson")])
      else None;
    match resource
    case None => None
    case Some(Unreadable) => None
    case Some(Parsed(d)) => d
  }

  /** Owner of a class that is not a plugin entry class: its loader chain's mod root, if any. */
  function LoaderOwner(w: World, c: ClassInfo): Option<string>
    requires LoadersAcyclic(w)
  {
    match ModRootLoader(w, c.loader)
    case None => None
    case Some(l) => GetPluginDisplayName(w, l)
  }

  /** Lines 76-103: attribution of an origin class, `cache` telling how it was found. */
  function Attribute(w: World, c: ClassInfo, name: string, cache: bool): (r: Resolution)
    requires LoadersAcyclic(w) && ClassWellFormed(c)
    ensures r.store ==> cache
    ensures r.result.name == name || (r.store && r.result.owner == Some(r.result.name))
    ensures IsAssignableTo(c, PLUGIN_CLASS) ==>
      (r.store <==> cache && GetPluginDisplayName(w, c.loader.value).Some?)
      && r.result.owner == GetPluginDisplayName(w, c.loader.value)
    ensures !IsAssignableTo(c, PLUGIN_CLASS) ==> r == Resolution(LoggerEntry(name, LoaderOwner(w, c)), cache)
  {
    if IsAssignableTo(c, PLUGIN_CLASS) then
      match GetPluginDisplayName(w, c.loader.value)
      case None => Resolution(LoggerEntry(name, None), false)
      case Some(d) =>
        Resolution(if cache then LoggerEntry(d, Some(d)) else LoggerEntry(name, Some(d)), cache)
    else
      Resolution(LoggerEntry(name, LoaderOwner(w, c)), cache)
  }

  /** What `getLogger(name)` does on a cache miss; `frames` are the walked stack's classes. */
  function Resolve(w: World, frames: seq<ClassInfo>, name: string): (r: Resolution)
    requires WellFormed(w) && forall k :: 0 <= k < |frames| ==> ClassWellFormed(frames[k])
    ensures r.store ==> ForName(w, name).Some?
    ensures r.result.name == name || (r.store && r.result.owner == Some(r.result.name))
    ensures ForName(w, name).None? && SelectCaller(frames).None? ==> r.result == LoggerEntry(name, None)
  {
    match ForName(w, name)
    case Some(c) => Attribute(w, c, name, true)
    case None =>
      match SelectCaller(frames)
      case None => Resolution(LoggerEntry(name, None), false)
      case Some(c) => Attribute(w, c, name, false)
  }

  /** The selected frame is always one of the logging classes, never the code that asked. */
  lemma SelectedCallerIsLoggingClass(frames: seq<ClassInfo>)
    requires SelectCaller(frames).Some?
    ensures IsLoggingClass(SelectCaller(frames).value)
    ensures !InLoggingPackage(SelectCaller(frames).value)
  {
  }

  /**
   * When the innermost walked frame is `SimpleLoggerFactory.getLogger`
   * itself, that frame is the one selected.
   */
  lemma FactoryFrameIsSelected(frames: seq<ClassInfo>)
    requires frames != [] && frames[0].name == SIMPLE_LOGGER_FACTORY
    ensures SelectCaller(frames) == Some(frames[0])
  {
    var c := frames[0];
    assert IsAssignableTo(c, LOGGING_CLASSES[0]);
    assert c.name[0] == 'c';
    assert forall k :: 0 <= k < |LOGGING_PACKAGES| ==> LOGGING_PACKAGES[k][0] != 'c';
    forall k | 0 <= k < |LOGGING_PACKAGES|
      ensures !StartsWith(PackageName(c.name), LOGGING_PACKAGES[k])
    {
      if StartsWith(PackageName(c.name), LOGGING_PACKAGES[k]) {
        StartsWithTransitive(c.name, PackageName(c.name), LOGGING_PACKAGES[k]);
      }
    }
  }

  /**
   * Any origin that is not a plugin entry class keeps the requested name;
   * its owner is the plugin display name of the first loader up the chain
   * whose parent is a `ModClassLoader`, or none when the chain ends first.
   * The logger is cached exactly when the origin was found by its class name.
   */
  lemma LoaderChainResolution(w: World, frames: seq<ClassInfo>, name: string, c: ClassInfo)
    requires WellFormed(w) && forall k :: 0 <= k < |frames| ==> ClassWellFormed(frames[k])
    requires !IsAssignableTo(c, PLUGIN_CLASS)
    requires ForName(w, name) == Some(c) || (ForName(w, name).None? && SelectCaller(frames) == Some(c))
    ensures Resolve(w, frames, name) == Resolution(LoggerEntry(name, LoaderOwner(w, c)), ForName(w, name).Some?)
    ensures LoaderOwner(w, c).Some? ==> ModRootLoader(w, c.loader).Some?
  {
  }

  /** Stack-derived resolutions are never cached. */
  lemma StackResolutionIsNeverStored(w: World, frames: seq<ClassInfo>, name: string)
    requires WellFormed(w) && forall k :: 0 <= k < |frames| ==> ClassWellFormed(frames[k])
    requires ForName(w, name).None?
    ensures !Resolve(w, frames, name).store
    ensures SelectCaller(frames).None? ==> Resolve(w, frames, name).result == LoggerEntry(name, None)
  {
    match SelectCaller(frames)
    case None =>
    case Some(c) =>
      assert Resolve(w, frames, name) == Attribute(w, c, name, false);
  }

  /**
   * A plugin entry class with display name `d`: found by its class name
   * the logger is named `d` and cached; found through the stack it keeps
   * the requested name, is owned by `d`, and is not cached.
   */
  lemma PluginResolution(w: World, frames: seq<ClassInfo>, name: string, c: ClassInfo, d: string)
    requires WellFormed(w) && forall k :: 0 <= k < |frames| ==> ClassWellFormed(frames[k])
    requires IsAssignableTo(c, PLUGIN_CLASS) && ClassWellFormed(c)
    requires GetPluginDisplayName(w, c.loader.value) == Some(d)
    ensures ForName(w, name) == Some(c) ==>
      Resolve(w, frames, name) == Resolution(LoggerEntry(d, Some(d)), true)
    ensures ForName(w, name).None? && SelectCaller(frames) == Some(c) ==>
      Resolve(w, frames, name) == Resolution(LoggerEntry(name, Some(d)), false)
  {
  }

  /**
   * A plugin entry class without a display name gives an unowned logger
   * under the requested name, not cached, however it was found.
   */
  lemma PluginWithoutDisplayName(w: World, frames: seq<ClassInfo>, name: string, c: ClassInfo)
    requires WellFormed(w) && forall k :: 0 <= k < |frames| ==> ClassWellFormed(frames[k])
    requires IsAssignableTo(c, PLUGIN_CLASS) && ClassWellFormed(c)
    requires GetPluginDisplayName(w, c.loader.value).None?
    requires ForName(w, name) == Some(c) || (ForName(w, name).None? && SelectCaller(frames) == Some(c))
    ensures Resolve(w, frames, name) == Resolution(LoggerEntry(name, None), false)
  {
  }

  class SimpleLoggerFactory {
    var loggers: map<string, LoggerEntry>

    /** The root logger is always cached, unowned. */
    ghost predicate Valid()
      reads this
    {
      ROOT_LOGGER_NAME in loggers && loggers[ROOT_LOGGER_NAME] == RootEntry()
    }

    constructor ()
      ensures Valid()
      ensures loggers == map[ROOT_LOGGER_NAME := RootEntry()]
    {
      loggers := map[ROOT_LOGGER_NAME := RootEntry()];
    }

    /**
     * `getLogger(name)` with the classes, loaders and resources in `w` and
     * the declaring classes of the walked stack frames in `frames`.
     */
    method GetLogger(w: World, frames: seq<ClassInfo>, name: string) returns (r: LoggerEntry)
      requires Valid() && WellFormed(w) && forall k :: 0 <= k < |frames| ==> ClassWellFormed(frames[k])
      modifies this
      ensures Valid()
      ensures name in old(loggers) ==> r == old(loggers)[name] && loggers == old(loggers)
      ensures name !in old(loggers) ==>
        var res := Resolve(w, frames, name);
        r == res.result && loggers == (if res.store then old(loggers)[name := r] else old(loggers))
      ensures name in loggers ==> r == loggers[name]
    {
      if name in loggers {
        return loggers[name];
      }

      var caller: ClassInfo;
      var cache := true;

      var byName := ForName(w, name);
      if byName.Some? {
        caller := byName.value;
      } else {
        var candidate := SelectCaller(frames);
        if candidate.None? {
          return LoggerEntry(name, None);
        }
        cache := false;
        caller := candidate.value;
      }

      if IsAssignableTo(caller, PLUGIN_CLASS) {
        var display := GetPluginDisplayName(w, caller.loader.value);
        if display.None? {
          return LoggerEntry(name, None);
        }
        var logger := if cache then LoggerEntry(display.value, display) else LoggerEntry(name, display);
        if cache {
          loggers := loggers[name := logger];
        }
        return logger;
      }

      var loader := caller.loader;
      var display: Option<string> := None;
      while loader.Some?
        invariant ModRootLoader(w, loader) == ModRootLoader(w, caller.loader)
        invariant display == None
        decreases LoaderRank(loader)
      {
        var p := Parent(w, loader.value);
        if p.Some? && p.value in w.modClassLoaders {
          display := GetPluginDisplayName(w, loader.value);
          break;
        }
        loader := p;
      }

      var logger := LoggerEntry(name, display);
      if cache {
        loggers := loggers[name := logger];
      }
      r := logger;
    }
  }
}
