/** The console logger (print_log): a line is written only for one of four levels. */
module Logging {
  import opened Wrappers

  /** One console line, without its timestamp: the level tag and the message. */
  datatype LogLine = LogLine(level: string, message: string)

  const Levels: set<string> := {"INFO", "ERROR", "DEBUG", "WARNING"}

  function InvalidLevel(level: string): string {
    "Invalid log level: " + level
  }

  /** print_log: the line it writes, or the error it raises (before writing) for an
      unknown level. */
  function PrintLog(level: string, message: string): (r: Result<LogLine>)
    ensures r.Ok? <==> level == "INFO" || level == "ERROR" || level == "DEBUG" || level == "WARNING"
    ensures r.Ok? ==> r.value.level == level && r.value.message == message
    ensures r.Err? ==> r.error == InvalidLevel(level)
  {
    if level in Levels then Ok(LogLine(level, message)) else Err(InvalidLevel(level))
  }
}
