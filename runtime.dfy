/**
 * The parts of the JVM and of Mindustry's mod loader that the logger
 * factories consult, replaced by plain data: the classes `Class.forName`
 * can find, the class-loader parent links, which loaders are Mindustry
 * `ModClassLoader`s, and what each loader's metadata resources parse to.
 * Also the logger value both factories hand out.
 */
module Runtime {
  import opened Wrappers
  import opened Text

  /** `org.slf4j.Logger.ROOT_LOGGER_NAME` */
  const ROOT_LOGGER_NAME: string := "ROOT"
  /** `mindustry.mod.Mod`, the entry class of a mod. */
  const MOD_CLASS: string := "mindustry.mod.Mod"
  /** `mindustry.mod.Plugin`, the entry class of a server plugin; it extends `Mod`. */
  const PLUGIN_CLASS: string := "mindustry.mod.Plugin"

  /** A class loader; `None` in an `Option<LoaderId>` is Java's `null` (the bootstrap loader). */
  type LoaderId = nat

  /**
   * A loaded class: its binary name, every class and interface it extends
   * or implements (transitively), and its defining loader.
   */
  datatype ClassInfo = ClassInfo(name: string, supertypes: set<string>, loader: Option<LoaderId>)

  /** What parsing one metadata resource with `Json.fromJson` and `ModMeta.cleanup` gives. */
  datatype Metadata =
    | Unreadable                           // the parse or the cleanup threw
    | Parsed(displayName: Option<string>)  // `meta.displayName`, possibly null

  datatype World = World(
    classes: map<string, ClassInfo>,                  // what `Class.forName` finds, by name
    parent: map<LoaderId, LoaderId>,                  // `getParent()`; absent means null
    modClassLoaders: set<LoaderId>,                   // loaders that are `instanceof ModClassLoader`
    resources: map<(LoaderId, string), Metadata>)     // `getResourceAsStream(file)` that is non-null

  /** `target.isAssignableFrom(c)` for a class named `target`. */
  predicate IsAssignableTo(c: ClassInfo, target: string)
  {
    c.name == target || target in c.supertypes
  }

  /**
   * Facts of the real class hierarchy: every plugin class is a mod class,
   * and mod classes are never defined by the bootstrap loader.
   */
  predicate ClassWellFormed(c: ClassInfo)
  {
    && (IsAssignableTo(c, PLUGIN_CLASS) ==> IsAssignableTo(c, MOD_CLASS))
    && (IsAssignableTo(c, MOD_CLASS) ==> c.loader.Some?)
  }

  /** Parent chains are finite: a parent always has a smaller id than its child. */
  predicate LoadersAcyclic(w: World)
  {
    forall l :: l in w.parent ==> w.parent[l] < l
  }

  predicate WellFormed(w: World)
  {
    && LoadersAcyclic(w)
    && forall n :: n in w.classes ==> w.classes[n].name == n && ClassWellFormed(w.classes[n])
  }

  /** `Class.forName(name)`; None where it throws `ClassNotFoundException`. */
  function ForName(w: World, name: string): (r: Option<ClassInfo>)
    requires WellFormed(w)
    ensures r.Some? ==> r.value.name == name && ClassWellFormed(r.value)
  {
    if name in w.classes then Some(w.classes[name]) else None
  }

  /** `loader.getParent()` */
  function Parent(w: World, l: LoaderId): (r: Option<LoaderId>)
    requires LoadersAcyclic(w)
    ensures r.Some? ==> r.value < l
  {
    if l in w.parent then Some(w.parent[l]) else None
  }

  /** `loader.getParent() instanceof ModClassLoader`: the loader is a mod's own root loader. */
  predicate ParentIsModClassLoader(w: World, l: LoaderId)
    requires LoadersAcyclic(w)
  {
    Parent(w, l).Some? && Parent(w, l).value in w.modClassLoaders
  }

  function LoaderRank(start: Option<LoaderId>): nat
  {
    if start.Some? then start.value + 1 else 0
  }

  /** The loaders met by following `getParent()` from `start` until null, in order. */
  function Chain(w: World, start: Option<LoaderId>): (r: seq<LoaderId>)
    requires LoadersAcyclic(w)
    ensures start.None? <==> r == []
    ensures start.Some? ==> r[0] == start.value
    ensures forall k :: 0 <= k < |r| - 1 ==> Parent(w, r[k]) == Some(r[k + 1])
    ensures r != [] ==> Parent(w, r[|r| - 1]).None?
    decreases LoaderRank(start)
  {
    if start.None? then [] else [start.value] + Chain(w, Parent(w, start.value))
  }

  /**
   * The loader whose parent is a `ModClassLoader`, found by walking up
   * from `start`: the first such loader on the chain, or None when the
   * chain reaches null without one.
   */
  function ModRootLoader(w: World, start: Option<LoaderId>): (r: Option<LoaderId>)
    requires LoadersAcyclic(w)
    ensures var c := Chain(w, start);
      r.None? <==> forall k :: 0 <= k < |c| ==> !ParentIsModClassLoader(w, c[k])
    ensures var c := Chain(w, start);
      r.Some? ==>
        exists k :: 0 <= k < |c| && c[k] == r.value && ParentIsModClassLoader(w, c[k])
          && forall j :: 0 <= j < k ==> !ParentIsModClassLoader(w, c[j])
    decreases LoaderRank(start)
  {
    if start.None? then None
    else
      var rest := Chain(w, Parent(w, start.value));
      assert Chain(w, start) == [start.value] + rest;
      assert forall k :: 0 <= k < |rest| ==> Chain(w, start)[k + 1] == rest[k];
      if ParentIsModClassLoader(w, start.value) then start
      else ModRootLoader(w, Parent(w, start.value))
  }

  /**
   * The resource of the first file name in `names` that the loader has,
   * parsed; None when it has none of them. Later names are not consulted
   * once one exists, whatever its parse gives.
   */
  function Probe(w: World, loader: LoaderId, names: seq<string>): (r: Option<Metadata>)
    ensures r.None? <==> forall i :: 0 <= i < |names| ==> (loader, names[i]) !in w.resources
    ensures r.Some? ==>
      exists i :: 0 <= i < |names| && (loader, names[i]) in w.resources
        && w.resources[(loader, names[i])] == r.value
        && forall j :: 0 <= j < i ==> (loader, names[j]) !in w.resources
  {
    if names == [] then None
    else if (loader, names[0]) in w.resources then Some(w.resources[(loader, names[0])])
    else Probe(w, loader, names[1..])
  }

  /** The display name a probed resource yields: none when absent or unreadable. */
  function DisplayNameOf(m: Option<Metadata>): Option<string>
  {
    match m
    case None => None
    case Some(Unreadable) => None
    case Some(Parsed(d)) => d
  }

  /** A logger as the factories build it: `new MindustryLogger(name, mod)` / `new SimpleLogger(name, mod)`. */
  datatype LoggerEntry = LoggerEntry(name: string, owner: Option<string>)

  /** The logger both factories seed their cache with. */
  function RootEntry(): LoggerEntry
  {
    LoggerEntry(ROOT_LOGGER_NAME, None)
  }
}
