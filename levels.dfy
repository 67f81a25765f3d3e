/**
 * The two level scales the provider translates between: SLF4J's
 * `org.slf4j.event.Level` and arc's `Log.LogLevel` (the host's verbosity).
 */
module Levels {
  import opened Wrappers
  import opened Text

  /** `org.slf4j.event.Level`, least to most severe. */
  datatype Level = TRACE | DEBUG | INFO | WARN | ERROR
  {
    /** `Level.toInt()`: SLF4J's `EventConstants` values. */
    function ToInt(): int
    {
      match this
      case TRACE => 0
      case DEBUG => 10
      case INFO => 20
      case WARN => 30
      case ERROR => 40
    }

    /** `Level.toString()` / `name()`: the constant's own name. */
    function Name(): string
    {
      match this
      case TRACE => "TRACE"
      case DEBUG => "DEBUG"
      case INFO => "INFO"
      case WARN => "WARN"
      case ERROR => "ERROR"
    }
  }

  /** `Level.valueOf(s)`: exact constant name, otherwise `IllegalArgumentException` (None). */
  function ValueOf(s: string): (r: Option<Level>)
    ensures r.Some? ==> r.value.Name() == s
    ensures forall l: Level :: s == l.Name() ==> r == Some(l)
  {
    if s == "TRACE" then Some(TRACE)
    else if s == "DEBUG" then Some(DEBUG)
    else if s == "INFO" then Some(INFO)
    else if s == "WARN" then Some(WARN)
    else if s == "ERROR" then Some(ERROR)
    else None
  }

  /** `Level.valueOf(s.toUpperCase(Locale.ROOT))`, as the settings loader and the command do it. */
  function ParseLevel(s: string): (r: Option<Level>)
    ensures r.Some? ==> Upper(s) == r.value.Name()
  {
    ValueOf(Upper(s))
  }

  /** `arc.util.Log.LogLevel`, in declaration order. */
  datatype LogLevel = debug | info | warn | err | none
  {
    /** `ordinal()` */
    function Ordinal(): nat
    {
      match this
      case debug => 0
      case info => 1
      case warn => 2
      case err => 3
      case none => 4
    }
  }

  /** Saving writes `Level.toString()`; loading parses it back to the same level. */
  lemma ParseLevelRoundTrip(l: Level)
    ensures ParseLevel(l.Name()) == Some(l)
    ensures ParseLevel(Lower(l.Name())) == Some(l)
  {
    var n := l.Name();
    assert Upper(n) == n by {
      forall i | 0 <= i < |n| ensures Upper(n)[i] == n[i] { }
    }
    LowerIdempotent(n);
    UpperFollowsLower(Lower(n), n);
  }

  /** Level names are read case-insensitively. */
  lemma ParseLevelIgnoresCase(a: string, b: string)
    requires Lower(a) == Lower(b)
    ensures ParseLevel(a) == ParseLevel(b)
  {
    UpperFollowsLower(a, b);
  }
}
