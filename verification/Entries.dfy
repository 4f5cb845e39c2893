/** Log entries as the transports see them (levels of src/config/levels.config.ts). */
module Entries {

  datatype Level = Trace | Debug | Info | Success | Warn | Error | Fatal

  function Rank(level: Level): int {
    match level
    case Trace => 0
    case Debug => 1
    case Info => 2
    case Success => 3
    case Warn => 4
    case Error => 5
    case Fatal => 6
  }

  /** The levels from the least to the most severe. */
  const LEVELS: seq<Level> := [Trace, Debug, Info, Success, Warn, Error, Fatal]

  const LEVEL_NAMES: seq<string> := ["trace", "debug", "info", "success", "warn", "error", "fatal"]

  /** A level's rank is its place in the list, and so is its name. */
  lemma LevelsAreRanked(level: Level)
    ensures 0 <= Rank(level) < |LEVELS| == |LEVEL_NAMES|
    ensures LEVELS[Rank(level)] == level && LEVEL_NAMES[Rank(level)] == LevelName(level)
  {
  }

  function LevelName(level: Level): string {
    match level
    case Trace => "trace"
    case Debug => "debug"
    case Info => "info"
    case Success => "success"
    case Warn => "warn"
    case Error => "error"
    case Fatal => "fatal"
  }

  /** `fingerprint` is the signature of the error in the entry's context, "" without one. */
  datatype Entry = Entry(author: string, level: Level, message: string, fingerprint: string)
}
