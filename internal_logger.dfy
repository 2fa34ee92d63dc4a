/**
 * internal/logger.go: the production logger, the same depth counter as types/logger.go with
 * only the INFO, SUCCESS and FAILURE levels besides `Enter` and `Exit`.
 * Each method returns the line it hands to Go's `log` package, whose clock is the `stamp`
 * parameter; the `fmt.Sprintf` formatting of the message is done by the caller.
 */
module InternalLogger {
  import opened Wrappers
  import opened Strings
  import opened LogLine
  import opened ApiHelpers

  class ProductionLogger {
    var depth: int

    /** `NewLogger`: no open block. */
    constructor NewLogger()
      ensures depth == 0
    {
      depth := 0;
    }

    /** `getIndent`: "│  " per level; a negative depth is first reset to 0. */
    method GetIndent() returns (indent: string)
      modifies this`depth
      ensures depth == Clamp(old(depth)) && indent == Indent(depth)
    {
      if depth < 0 {
        depth := 0;
      }
      indent := Indent(depth);
    }

    /** `log`: time stamp, indent, prefix, one space and the message. */
    method Log(stamp: DateTime, prefix: string, message: string) returns (line: string)
      requires ValidDateTime(stamp)
      modifies this`depth
      ensures depth == Clamp(old(depth)) && line == Line(stamp, depth, prefix, message)
    {
      var indent := GetIndent();
      line := FormatTimestamp(stamp) + " " + indent + prefix + " " + message;
    }

    /** A line with a level symbol, which the log reader gives back as a record of that level. */
    method LogSymbol(stamp: DateTime, symbol: char, level: string, message: string) returns (line: string)
      requires ValidDateTime(stamp) && symbol in LevelSymbols && LevelSymbols[symbol] == level
      modifies this`depth
      ensures depth == Clamp(old(depth)) && line == Line(stamp, depth, [symbol], message)
      ensures Trimmed(message) ==>
        ReadLine(line) == Ok(LogEntry(stamp, level, message, "message", if depth == 0 then 0 else 1))
    {
      line := Log(stamp, [symbol], message);
      if Trimmed(message) {
        ParseSymbolLine(stamp, depth, symbol, message);
      }
    }

    method Info(stamp: DateTime, message: string) returns (line: string)
      requires ValidDateTime(stamp)
      modifies this`depth
      ensures depth == Clamp(old(depth)) && line == Line(stamp, depth, [InfoSymbol], message)
      ensures Trimmed(message) ==>
        ReadLine(line) == Ok(LogEntry(stamp, "INFO", message, "message", if depth == 0 then 0 else 1))
    {
      SymbolLevels();
      line := LogSymbol(stamp, InfoSymbol, "INFO", message);
    }

    method Success(stamp: DateTime, message: string) returns (line: string)
      requires ValidDateTime(stamp)
      modifies this`depth
      ensures depth == Clamp(old(depth)) && line == Line(stamp, depth, [SuccessSymbol], message)
      ensures Trimmed(message) ==>
        ReadLine(line) == Ok(LogEntry(stamp, "SUCCESS", message, "message", if depth == 0 then 0 else 1))
    {
      SymbolLevels();
      line := LogSymbol(stamp, SuccessSymbol, "SUCCESS", message);
    }

    method Failure(stamp: DateTime, message: string) returns (line: string)
      requires ValidDateTime(stamp)
      modifies this`depth
      ensures depth == Clamp(old(depth)) && line == Line(stamp, depth, [FailureSymbol], message)
      ensures Trimmed(message) ==>
        ReadLine(line) == Ok(LogEntry(stamp, "FAILURE", message, "message", if depth == 0 then 0 else 1))
    {
      SymbolLevels();
      line := LogSymbol(stamp, FailureSymbol, "FAILURE", message);
    }

    /** `Enter`: a "┌─ BEGIN: name" line at the current depth, then one level deeper. */
    method Enter(stamp: DateTime, name: string) returns (line: string)
      requires ValidDateTime(stamp)
      modifies this`depth
      ensures depth == DepthAfterEnter(old(depth))
      ensures line == Line(stamp, depth - 1, BeginPrefix, "BEGIN: " + name)
      ensures Trimmed(name) ==>
        ReadLine(line) == Ok(LogEntry(stamp, "INFO", name, "begin", if depth == 1 then 2 else 1))
    {
      line := Log(stamp, BeginPrefix, "BEGIN: " + name);
      if Trimmed(name) {
        ParseBlockLine(stamp, depth, true, name);
      }
      depth := depth + 1;
    }

    /** `Exit`: one level up unless already at the top, then an "└─ END: name" line. */
    method Exit(stamp: DateTime, name: string) returns (line: string)
      requires ValidDateTime(stamp)
      modifies this`depth
      ensures depth == DepthAfterExit(old(depth))
      ensures line == Line(stamp, depth, EndPrefix, "END: " + name)
      ensures Trimmed(name) ==>
        ReadLine(line) == Ok(LogEntry(stamp, "INFO", name, "end", if depth == 0 then 2 else 1))
    {
      if depth > 0 {
        depth := depth - 1;
      }
      line := Log(stamp, EndPrefix, "END: " + name);
      if Trimmed(name) {
        ParseBlockLine(stamp, depth, false, name);
      }
    }
  }
}
