/** The level filter of src/core/logger.js: a fixed priority table, a threshold chosen
    when the logger is built, and the line a message becomes when it passes. The clock
    is a parameter and the console write is the returned line. */
module Logging {
  import opened Wrappers
  import Json

  datatype Level = Debug | Info | Warn | Error

  /** `levelPriority`. */
  function Priority(level: Level): (p: nat)
    ensures p in {10, 20, 30, 40}
  {
    match level
    case Debug => 10
    case Info => 20
    case Warn => 30
    case Error => 40
  }

  /** The level names as the source spells them, and their `toUpperCase()`. */
  function Name(level: Level): string {
    match level
    case Debug => "debug"
    case Info => "info"
    case Warn => "warn"
    case Error => "error"
  }

  /** ASCII upper-casing, which is all `toUpperCase` does to the four level names. */
  function UpperChar(c: char): (u: char)
    ensures 'a' <= c <= 'z' ==> 'A' <= u <= 'Z'
    ensures !('a' <= c <= 'z') ==> u == c
  {
    if 'a' <= c <= 'z' then (c as int - 'a' as int + 'A' as int) as char else c
  }

  function Upper(s: string): (u: string)
    ensures |u| == |s|
    ensures forall i :: 0 <= i < |s| ==> u[i] == UpperChar(s[i])
  {
    seq(|s|, i requires 0 <= i < |s| => UpperChar(s[i]))
  }

  /** The levels from least to most severe: an ordering defined without the table. */
  const Levels: seq<Level> := [Debug, Info, Warn, Error]

  function Rank(level: Level): (k: nat)
    ensures k < |Levels| && Levels[k] == level
  {
    match level
    case Debug => 0
    case Info => 1
    case Warn => 2
    case Error => 3
  }

  /** One call of `console.log`: the base text and, when given, the payload argument. */
  datatype LogLine = LogLine(text: string, payload: Option<Json.Json>)

  /** A `Logger`: only its threshold matters to what it emits. */
  datatype Logger = Logger(threshold: Level)

  /** `new Logger()` takes the threshold `'info'`. */
  function DefaultLogger(): (l: Logger)
    ensures l.threshold == Info
  {
    Logger(Info)
  }

  /** `#log(level, message, payload)` at the moment `timestamp`: `None` when the level
      is below the threshold, and otherwise the `console.log` call it makes. */
  function Log(logger: Logger, level: Level, timestamp: string, message: string, payload: Option<Json.Json>): (r: Option<LogLine>)
    ensures r.Some? ==> r.value.payload == payload
  {
    if Priority(level) < Priority(logger.threshold) then None
    else Some(LogLine("[" + timestamp + "] [" + Upper(Name(level)) + "] " + message, payload))
  }

  /** The table orders the levels as their severity does. */
  lemma PriorityStrictlyOrdered(a: Level, b: Level)
    ensures Priority(a) < Priority(b) <==> Rank(a) < Rank(b)
    ensures Priority(a) == Priority(b) <==> a == b
  {
  }

  /** A message is emitted exactly when its level is at least as severe as the threshold. */
  lemma EmittedIffAtLeastThreshold(logger: Logger, level: Level, timestamp: string, message: string, payload: Option<Json.Json>)
    ensures Log(logger, level, timestamp, message, payload).Some? <==> Rank(logger.threshold) <= Rank(level)
  {
    PriorityStrictlyOrdered(level, logger.threshold);
  }

  /** Error messages pass every threshold. */
  lemma ErrorAlwaysEmitted(logger: Logger, timestamp: string, message: string, payload: Option<Json.Json>)
    ensures Log(logger, Error, timestamp, message, payload).Some?
  {
    EmittedIffAtLeastThreshold(logger, Error, timestamp, message, payload);
  }

  /** The default logger drops debug messages and emits every other level. */
  lemma DefaultThresholdIsInfo(level: Level, timestamp: string, message: string, payload: Option<Json.Json>)
    ensures Log(DefaultLogger(), level, timestamp, message, payload).None? <==> level == Debug
  {
    EmittedIffAtLeastThreshold(DefaultLogger(), level, timestamp, message, payload);
  }

  /** Raising the threshold never makes more messages appear. */
  lemma ThresholdMonotone(lower: Level, higher: Level, level: Level, timestamp: string, message: string, payload: Option<Json.Json>)
    requires Rank(lower) <= Rank(higher)
    ensures Log(Logger(higher), level, timestamp, message, payload).Some? ==>
      Log(Logger(lower), level, timestamp, message, payload).Some?
  {
    EmittedIffAtLeastThreshold(Logger(higher), level, timestamp, message, payload);
    EmittedIffAtLeastThreshold(Logger(lower), level, timestamp, message, payload);
  }

  /** An emitted line is `[timestamp] [LEVEL] message`, the level name upper-cased, with
      the payload passed on as given. */
  lemma EmittedLineShape(logger: Logger, level: Level, timestamp: string, message: string, payload: Option<Json.Json>)
    requires Log(logger, level, timestamp, message, payload).Some?
    ensures var line := Log(logger, level, timestamp, message, payload).value;
      && line.text[..|timestamp| + 3] == "[" + timestamp + "] "
      && line.text[|timestamp| + 3..] == "[" + Upper(Name(level)) + "] " + message
      && line.payload == payload
  {
    var line := Log(logger, level, timestamp, message, payload).value;
    assert line.text == ("[" + timestamp + "] ") + ("[" + Upper(Name(level)) + "] " + message);
  }

  /** The upper-cased names are the labels the lines carry. */
  lemma UpperNames()
    ensures Upper(Name(Debug)) == "DEBUG" && Upper(Name(Info)) == "INFO"
    ensures Upper(Name(Warn)) == "WARN" && Upper(Name(Error)) == "ERROR"
  {
    assert Upper("debug") == "DEBUG";
    assert Upper("info") == "INFO";
    assert Upper("warn") == "WARN";
    assert Upper("error") == "ERROR";
  }
}
