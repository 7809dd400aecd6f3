/**
 * The severity level of a toast and its display text.  Both src/lib.rs and
 * src/toast.rs declare this same four-variant enum, with a `Display` that
 * writes the variant's derived `Debug` text, i.e. its name.
 */
module Levels {

  datatype Level = Info | Success | Warning | Error

  /** `Level::fmt`: the text shown for a level is the variant's own name. */
  function LevelName(l: Level): (s: string)
    ensures l == Info <==> s == "Info"
    ensures l == Success <==> s == "Success"
    ensures l == Warning <==> s == "Warning"
    ensures l == Error <==> s == "Error"
  {
    match l
    case Info => "Info"
    case Success => "Success"
    case Warning => "Warning"
    case Error => "Error"
  }

  /** Distinct levels are displayed differently, so the text identifies the level. */
  lemma LevelNameInjective(a: Level, b: Level)
    ensures LevelName(a) == LevelName(b) <==> a == b
  {
  }
}
