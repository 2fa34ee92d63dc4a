/**
 * types/logger.go: a logger that indents its lines by the nesting of `Enter`/`Exit` blocks.
 * Each method returns the line it hands to Go's `log` package, whose clock is the `stamp`
 * parameter; the `fmt.Sprintf` formatting of the message is done by the caller.
 */
module TypesLogger {
  import opened Wrappers
  import opened Strings
  import opened LogLine
  import opened ApiHelpers

  class LogInfo {
    var depth: int

    /** `NewLogger`: no open block. */
    constructor NewLogger()
      ensures depth == 0
    {
      depth := 0;
    }

    /** `getIndent`: "│  " per level; a negative depth is first reset to 0. */
    method GetIndent() returns (indent: string)
      modifies this`depth
      ensures depth == Clamp(old(depth)) && indent == Indent(depth)
    {
      if depth < 0 {
        depth := 0;
      }
      indent := Indent(depth);
    }

    /** `log`: time stamp, indent, prefix, one space and the message. */
    method Log(stamp: DateTime, prefix: string, message: string) returns (line: string)
      requires ValidDateTime(stamp)
      modifies this`depth
      ensures depth == Clamp(old(depth)) && line == Line(stamp, depth, prefix, message)
    {
      var indent := GetIndent();
      line := FormatTimestamp(stamp) + " " + indent + prefix + " " + message;
    }

    /** A line with a level symbol, which the log reader gives back as a record of that level. */
    method LogSymbol(stamp: DateTime, symbol: char, level: string, message: string) returns (line: string)
      requires ValidDateTime(stamp) && symbol in LevelSymbols && LevelSymbols[symbol] == level
      modifies this`depth
      ensures depth == Clamp(old(depth)) && line == Line(stamp, depth, [symbol], message)
      ensures Trimmed(message) ==>
        ReadLine(line) == Ok(LogEntry(stamp, level, message, "message", if depth == 0 then 0 else 1))
    {
      line := Log(stamp, [symbol], message);
      if Trimmed(message) {
        ParseSymbolLine(stamp, depth, symbol, message);
      }
    }

    method Info(stamp: DateTime, message: string) returns (line: string)
      requires ValidDateTime(stamp)
      modifies this`depth
      ensures depth == Clamp(old(depth)) && line == Line(stamp, depth, [InfoSymbol], message)
      ensures Trimmed(message) ==>
        ReadLine(line) == Ok(LogEntry(stamp, "INFO", message, "message", if depth == 0 then 0 else 1))
    {
      SymbolLevels();
      line := LogSymbol(stamp, InfoSymbol, "INFO", message);
    }

    method Success(stamp: DateTime, message: string) returns (line: string)
      requires ValidDateTime(stamp)
      modifies this`depth
      ensures depth == Clamp(old(depth)) && line == Line(stamp, depth, [SuccessSymbol], message)
      ensures Trimmed(message) ==>
        ReadLine(line) == Ok(LogEntry(stamp, "SUCCESS", message, "message", if depth == 0 then 0 else 1))
    {
      SymbolLevels();
      line := LogSymbol(stamp, SuccessSymbol, "SUCCESS", message);
    }

    method Failure(stamp: DateTime, message: string) returns (line: string)
      requires ValidDateTime(stamp)
      modifies this`depth
      ensures depth == Clamp(old(depth)) && line == Line(stamp, depth, [FailureSymbol], message)
      ensures Trimmed(message) ==>
        ReadLine(line) == Ok(LogEntry(stamp, "FAILURE", message, "message", if depth == 0 then 0 else 1))
    {
      SymbolLevels();
      line := LogSymbol(stamp, FailureSymbol, "FAILURE", message);
    }

    /** `Enter`: a "┌─ BEGIN: name" line at the current depth, then one level deeper. */
    method Enter(stamp: DateTime, name: string) returns (line: string)
      requires ValidDateTime(stamp)
      modifies this`depth
      ensures depth == DepthAfterEnter(old(depth))
      ensures line == Line(stamp, depth - 1, BeginPrefix, "BEGIN: " + name)
      ensures Trimmed(name) ==>
        ReadLine(line) == Ok(LogEntry(stamp, "INFO", name, "begin", if depth == 1 then 2 else 1))
    {
      line := Log(stamp, BeginPrefix, "BEGIN: " + name);
      if Trimmed(name) {
        ParseBlockLine(stamp, depth, true, name);
      }
      depth := depth + 1;
    }

    /** `Exit`: one level up unless already at the top, then an "└─ END: name" line. */
    method Exit(stamp: DateTime, name: string) returns (line: string)
      requires ValidDateTime(stamp)
      modifies this`depth
      ensures depth == DepthAfterExit(old(depth))
      ensures line == Line(stamp, depth, EndPrefix, "END: " + name)
      ensures Trimmed(name) ==>
        ReadLine(line) == Ok(LogEntry(stamp, "INFO", name, "end", if depth == 0 then 2 else 1))
    {
      if depth > 0 {
        depth := depth - 1;
      }
      line := Log(stamp, EndPrefix, "END: " + name);
      if Trimmed(name) {
        ParseBlockLine(stamp, depth, false, name);
      }
    }

    method Debug(stamp: DateTime, message: string) returns (line: string)
      requires ValidDateTime(stamp)
      modifies this`depth
      ensures depth == Clamp(old(depth)) && line == Line(stamp, depth, [DebugSymbol], message)
      ensures Trimmed(message) ==>
        ReadLine(line) == Ok(LogEntry(stamp, "DEBUG", message, "message", if depth == 0 then 0 else 1))
    {
      SymbolLevels();
      line := LogSymbol(stamp, DebugSymbol, "DEBUG", message);
    }

    method Notice(stamp: DateTime, message: string) returns (line: string)
      requires ValidDateTime(stamp)
      modifies this`depth
      ensures depth == Clamp(old(depth)) && line == Line(stamp, depth, [NoticeSymbol], message)
      ensures Trimmed(message) ==>
        ReadLine(line) == Ok(LogEntry(stamp, "NOTICE", message, "message", if depth == 0 then 0 else 1))
    {
      SymbolLevels();
      line := LogSymbol(stamp, NoticeSymbol, "NOTICE", message);
    }

    method Warn(stamp: DateTime, message: string) returns (line: string)
      requires ValidDateTime(stamp)
      modifies this`depth
      ensures depth == Clamp(old(depth)) && line == Line(stamp, depth, [WarnSymbol], message)
      ensures Trimmed(message) ==>
        ReadLine(line) == Ok(LogEntry(stamp, "WARNING", message, "message", if depth == 0 then 0 else 1))
    {
      SymbolLevels();
      line := LogSymbol(stamp, WarnSymbol, "WARNING", message);
    }

    method Error(stamp: DateTime, message: string) returns (line: string)
      requires ValidDateTime(stamp)
      modifies this`depth
      ensures depth == Clamp(old(depth)) && line == Line(stamp, depth, [ErrorSymbol], message)
      ensures Trimmed(message) ==>
        ReadLine(line) == Ok(LogEntry(stamp, "ERROR", message, "message", if depth == 0 then 0 else 1))
    {
      SymbolLevels();
      line := LogSymbol(stamp, ErrorSymbol, "ERROR", message);
    }

    method Critical(stamp: DateTime, message: string) returns (line: string)
      requires ValidDateTime(stamp)
      modifies this`depth
      ensures depth == Clamp(old(depth)) && line == Line(stamp, depth, [CriticalSymbol], message)
      ensures Trimmed(message) ==>
        ReadLine(line) == Ok(LogEntry(stamp, "CRITICAL", message, "message", if depth == 0 then 0 else 1))
    {
      SymbolLevels();
      line := LogSymbol(stamp, CriticalSymbol, "CRITICAL", message);
    }

    method Alert(stamp: DateTime, message: string) returns (line: string)
      requires ValidDateTime(stamp)
      modifies this`depth
      ensures depth == Clamp(old(depth)) && line == Line(stamp, depth, [AlertSymbol], message)
      ensures Trimmed(message) ==>
        ReadLine(line) == Ok(LogEntry(stamp, "ALERT", message, "message", if depth == 0 then 0 else 1))
    {
      SymbolLevels();
      line := LogSymbol(stamp, AlertSymbol, "ALERT", message);
    }

    method Emergency(stamp: DateTime, message: string) returns (line: string)
      requires ValidDateTime(stamp)
      modifies this`depth
      ensures depth == Clamp(old(depth)) && line == Line(stamp, depth, [EmergencySymbol], message)
      ensures Trimmed(message) ==>
        ReadLine(line) == Ok(LogEntry(stamp, "EMERGENCY", message, "message", if depth == 0 then 0 else 1))
    {
      SymbolLevels();
      line := LogSymbol(stamp, EmergencySymbol, "EMERGENCY", message);
    }
  }
}
