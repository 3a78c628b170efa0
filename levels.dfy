/**
 * The standard logging levels and the lenient name lookup that configuration
 * attributes go through (`Level.toLevel(name, default)`).
 */
module Levels {
  import opened Wrappers
  import opened Text

  /** The standard levels, most severe first. Custom levels are not part of this model. */
  datatype Level = OFF | FATAL | ERROR | WARN | INFO | DEBUG | TRACE | ALL

  function Name(l: Level): (r: string)
    ensures forall k :: 0 <= k < |r| ==> 'A' <= r[k] <= 'Z'
  {
    match l
    case OFF => "OFF"
    case FATAL => "FATAL"
    case ERROR => "ERROR"
    case WARN => "WARN"
    case INFO => "INFO"
    case DEBUG => "DEBUG"
    case TRACE => "TRACE"
    case ALL => "ALL"
  }

  /** The registry of levels by (upper-case) name. */
  function Lookup(name: string): (r: Option<Level>)
    ensures r.Some? ==> Name(r.value) == name
    ensures r.None? ==> forall l: Level :: Name(l) != name
  {
    if name == "OFF" then Some(OFF)
    else if name == "FATAL" then Some(FATAL)
    else if name == "ERROR" then Some(ERROR)
    else if name == "WARN" then Some(WARN)
    else if name == "INFO" then Some(INFO)
    else if name == "DEBUG" then Some(DEBUG)
    else if name == "TRACE" then Some(TRACE)
    else if name == "ALL" then Some(ALL)
    else None
  }

  /**
   * `Level.toLevel(s, defaultLevel)`: a missing name gives the default; otherwise the
   * trimmed, upper-cased name is looked up and an unknown name gives the default too.
   */
  function ToLevel(s: Option<string>, defaultLevel: Level): (r: Level)
    ensures s.None? ==> r == defaultLevel
    ensures r != defaultLevel ==> s.Some? && Name(r) == ToUpperAscii(Trim(s.value))
    ensures s.Some? && (forall l: Level :: Name(l) != ToUpperAscii(Trim(s.value))) ==> r == defaultLevel
    ensures forall l: Level :: s.Some? && ToUpperAscii(Trim(s.value)) == Name(l) ==> r == l
  {
    if s.None? then defaultLevel
    else
      var name := ToUpperAscii(Trim(s.value));
      LookupFindsEveryName(name);
      Lookup(name).GetOr(defaultLevel)
  }

  /** A name that is some level's name is found as exactly that level. */
  lemma LookupFindsEveryName(name: string)
    ensures forall l: Level :: Name(l) == name ==> Lookup(name) == Some(l)
  {
    forall l: Level | Name(l) == name ensures Lookup(name) == Some(l) {
      LookupOfName(l);
    }
  }

  lemma {:induction false} UpperOfUpper(s: string)
    requires forall k :: 0 <= k < |s| ==> 'A' <= s[k] <= 'Z'
    ensures ToUpperAscii(s) == s
  {
    var u := ToUpperAscii(s);
    assert |u| == |s|;
    forall k | 0 <= k < |s| ensures u[k] == s[k] {
      assert u[k] == AsciiUpper(s[k]);
    }
  }

  /** The registry holds every level under its own name. */
  lemma LookupOfName(l: Level)
    ensures Lookup(Name(l)) == Some(l)
  {
    match l
    case OFF =>
    case FATAL =>
    case ERROR =>
    case WARN =>
    case INFO =>
    case DEBUG =>
    case TRACE =>
    case ALL =>
  }

  /** Every level's own name, written as it is, selects that level whatever the default. */
  lemma ToLevelOfName(l: Level, defaultLevel: Level)
    ensures ToLevel(Some(Name(l)), defaultLevel) == l
  {
    var n := Name(l);
    assert Trim(n) == n;
    UpperOfUpper(n);
    LookupOfName(l);
  }
}
