/**
 * internal/api_helpers.go: hash comparison, the reader of the loggers' tree-shaped lines,
 * the log paginator, the settings merge and the walk from the forest root along a path of
 * child names. The JWT middleware, the worker queue, the node cache and the file-reading
 * log cache refresh are not part of this model.
 */
module ApiHelpers {
  import opened Wrappers
  import opened Strings
  import opened LogLine
  import opened Core
  import opened Config
  import NodeSpec
  import PathWalk

  // ---------------------------------------------------------------- compareHashes

  /** Byte-wise comparison: equal length and equal bytes. */
  method CompareHashes(a: seq<Byte>, b: seq<Byte>) returns (r: bool)
    ensures r <==> a == b
  {
    if |a| != |b| {
      return false;
    }
    var i := 0;
    while i < |a|
      invariant 0 <= i <= |a|
      invariant a[..i] == b[..i]
    {
      if a[i] != b[i] {
        return false;
      }
      i := i + 1;
    }
    assert a == a[..i] && b == b[..i];
    return true;
  }

  // ---------------------------------------------------------------- parseLogEntry

  /** One record read back from the log file. */
  datatype LogEntry = LogEntry(timestamp: DateTime, level: string, message: string, entryType: string, indent: nat)

  datatype ParseError = LineTooShort | InvalidTimestamp

  /** The box-drawing characters the loggers draw their tree with. */
  const TreeChars: set<char> := {Bar, Corner, Top, Dash}

  /** What the parser strips from the front of a line before reading the message. */
  const TreeCutset: set<char> := {Bar, Corner, Top, Dash, ' '}

  /**
   * The level each symbol stands for. The source keys its map by strings; every key is a single
   * code point, so the map here is keyed by that character.
   */
  const LevelSymbols: map<char, string> := map[
    InfoSymbol := "INFO",
    SuccessSymbol := "SUCCESS",
    FailureSymbol := "FAILURE",
    DebugSymbol := "DEBUG",
    NoticeSymbol := "NOTICE",
    WarnSymbol := "WARNING",
    ErrorSymbol := "ERROR",
    CriticalSymbol := "CRITICAL",
    AlertSymbol := "ALERT",
    EmergencySymbol := "EMERGENCY"
  ]

  /** The level each logger method's symbol stands for. */
  lemma SymbolLevels()
    ensures InfoSymbol in LevelSymbols && LevelSymbols[InfoSymbol] == "INFO"
    ensures SuccessSymbol in LevelSymbols && LevelSymbols[SuccessSymbol] == "SUCCESS"
    ensures FailureSymbol in LevelSymbols && LevelSymbols[FailureSymbol] == "FAILURE"
    ensures DebugSymbol in LevelSymbols && LevelSymbols[DebugSymbol] == "DEBUG"
    ensures NoticeSymbol in LevelSymbols && LevelSymbols[NoticeSymbol] == "NOTICE"
    ensures WarnSymbol in LevelSymbols && LevelSymbols[WarnSymbol] == "WARNING"
    ensures ErrorSymbol in LevelSymbols && LevelSymbols[ErrorSymbol] == "ERROR"
    ensures CriticalSymbol in LevelSymbols && LevelSymbols[CriticalSymbol] == "CRITICAL"
    ensures AlertSymbol in LevelSymbols && LevelSymbols[AlertSymbol] == "ALERT"
    ensures EmergencySymbol in LevelSymbols && LevelSymbols[EmergencySymbol] == "EMERGENCY"
  {
  }

  predicate IsUpperAscii(s: string) {
    forall i :: 0 <= i < |s| ==> 'A' <= s[i] <= 'Z'
  }

  /** A level the parser can report. */
  predicate IsLevel(s: string) {
    s == "INFO" || s in LevelSymbols.Values
  }

  lemma LevelsUpper(s: string)
    requires IsLevel(s)
    ensures IsUpperAscii(s)
  {
  }

  lemma SymbolsApart()
    ensures forall c :: c in LevelSymbols ==> c !in TreeCutset && !IsSpace(c) && c != 'B' && c != 'E'
  {
  }

  /**
   * Case-insensitive equality of `strings.EqualFold` against a level name, whose letters are
   * all upper-case ASCII: each character is the letter, its lower case or, for K and S, the
   * Kelvin sign and the long s that simple case folding also maps to them.
   */
  predicate FoldsTo(c: char, u: char)
    requires 'A' <= u <= 'Z'
  {
    c == u || c as int == u as int + 32 || (u == 'K' && c == '\U{212A}') || (u == 'S' && c == '\U{017F}')
  }

  predicate EqualFold(s: string, t: string)
    requires IsUpperAscii(t)
  {
    |s| == |t| && forall i :: 0 <= i < |s| ==> FoldsTo(s[i], t[i])
  }

  /** The number of leading characters of `s` that belong to `chars`. */
  function LeadingCount(s: string, chars: set<char>): (r: nat)
    ensures r <= |s|
    ensures forall i :: 0 <= i < r ==> s[i] in chars
    ensures r == |s| || s[r] !in chars
  {
    if s != [] && s[0] in chars then 1 + LeadingCount(s[1..], chars) else 0
  }

  /** The level symbol `message` starts with, if any. */
  function SymbolOf(message: string): (r: Option<char>)
    ensures r.Some? ==> r.value in LevelSymbols && HasPrefix(message, [r.value])
    ensures r.None? ==> forall c :: c in LevelSymbols ==> !HasPrefix(message, [c])
  {
    if message != [] && message[0] in LevelSymbols then Some(message[0]) else None
  }

  /** No two symbols can prefix the same message, so the order of the symbol scan does not matter. */
  lemma AtMostOneSymbol(message: string, c1: char, c2: char)
    requires c1 in LevelSymbols && c2 in LevelSymbols
    requires HasPrefix(message, [c1]) && HasPrefix(message, [c2])
    ensures c1 == c2
  {
    assert [c1] == message[..1] == [c2];
  }

  datatype Classified = Classified(level: string, content: string, entryType: string)

  /**
   * Level, content and kind of a message whose tree prefix is gone: "BEGIN:" and "END:" open
   * and close a block at level INFO, a level symbol gives its level, anything else is INFO.
   */
  function Classify(message: string): (c: Classified)
    ensures IsLevel(c.level)
    ensures c.entryType == "begin" || c.entryType == "end" || c.entryType == "message"
  {
    if HasPrefix(message, "BEGIN:") then Classified("INFO", TrimSpace(TrimPrefix(message, "BEGIN:")), "begin")
    else if HasPrefix(message, "END:") then Classified("INFO", TrimSpace(TrimPrefix(message, "END:")), "end")
    else match SymbolOf(message)
      case Some(symbol) =>
        Classified(LevelSymbols[symbol], TrimSpace(TrimPrefix(message, [symbol])), "message")
      case None => Classified("INFO", message, "message")
  }

  /**
   * What `parseLogEntry` reads from one line before its level filter: an error or the record.
   * Go measures and slices the line in bytes: below 19 bytes it is too short, and the stamp is
   * its first 19 bytes. When those parse they are ASCII, so they are also its first 19
   * characters, and the bytes after them are the characters after them.
   */
  function ReadLine(line: string): (r: Result<LogEntry, ParseError>)
    ensures r == Err(LineTooShort) <==> |Bytes(line)| < 19
    ensures r == Err(InvalidTimestamp) <==> |Bytes(line)| >= 19 && ParseTimestamp(Bytes(line)[..19]).None?
    ensures r.Ok? ==> |Bytes(line)| >= 19 && ParseTimestamp(Bytes(line)[..19]) == Some(r.value.timestamp)
    ensures r.Ok? ==> IsLevel(r.value.level)
  {
    var bytes := Bytes(line);
    if |bytes| < 19 then Err(LineTooShort)
    else match ParseTimestamp(bytes[..19])
      case None => Err(InvalidTimestamp)
      case Some(t) =>
        StampFirst(line);
        var remainder := TrimSpace(line[19..]);
        var c := Classify(TrimLeft(remainder, TreeCutset));
        Ok(LogEntry(t, c.level, c.content, c.entryType, LeadingCount(remainder, TreeChars)))
  }

  /** A stamp that parses is the first 19 characters of the line, and the rest of the line follows it. */
  lemma StampFirst(line: string)
    requires |Bytes(line)| >= 19 && ParseTimestamp(Bytes(line)[..19]).Some?
    ensures |line| >= 19 && Bytes(line[19..]) == Bytes(line)[19..]
  {
    var b := Bytes(line);
    ParsedAscii(b[..19]);
    assert forall i :: 0 <= i < 19 ==> b[i] == b[..19][i];
    AsciiPrefix(line, 19);
  }

  /**
   * A line of fewer than 19 characters but at least 19 bytes (seven "ℹ" are 21 bytes) is not
   * too short: it is cut inside a character and fails as an invalid time stamp.
   */
  lemma MultibyteShortLine(line: string)
    requires |line| < 19 <= |Bytes(line)|
    ensures ReadLine(line) == Err(InvalidTimestamp)
  {
    if ParseTimestamp(Bytes(line)[..19]).Some? {
      StampFirst(line);
    }
  }

  /** The level filter of `parseLogEntry`: an empty filter keeps everything. */
  function Filter(entry: LogEntry, level: string): (r: Option<LogEntry>)
    requires IsLevel(entry.level)
    ensures r.Some? ==> r.value == entry
    ensures level == "" ==> r == Some(entry)
  {
    LevelsUpper(entry.level);
    if level != "" && !EqualFold(level, entry.level) then None else Some(entry)
  }

  /**
   * What `parseLogEntry` makes of one line: an error for a short line or a bad time stamp,
   * `None` for a record whose level is not the (case-insensitive) filter, and the record
   * otherwise. The filter only drops records: it never makes or hides an error.
   */
  function ParseLine(line: string, level: string): (r: Result<Option<LogEntry>, ParseError>)
    ensures r.Err? <==> ReadLine(line).Err?
    ensures r.Err? ==> r.error == ReadLine(line).error
    ensures r.Ok? && r.value.Some? ==> r.value.value == ReadLine(line).value
    ensures r.Ok? && level == "" ==> r.value.Some?
  {
    match ReadLine(line)
      case Err(e) => Err(e)
      case Ok(entry) => Ok(Filter(entry, level))
  }

  /** `parseLogEntry`: the time stamp check, the tree-prefix count, the message and the level filter. */
  method ParseLogEntry(line: string, level: string) returns (r: Result<Option<LogEntry>, ParseError>)
    ensures r == ParseLine(line, level)
  {
    var bytes := Bytes(line);
    if |bytes| < 19 {
      return Err(LineTooShort);
    }
    var timestamp := ParseTimestamp(bytes[..19]);
    if timestamp.None? {
      return Err(InvalidTimestamp);
    }
    StampFirst(line);
    var remainder := TrimSpace(line[19..]);
    var indentCount := CountTreePrefix(remainder);
    var message := TrimLeft(remainder, TreeCutset);
    var c := ClassifyMessage(message);
    var entry := LogEntry(timestamp.value, c.level, c.content, c.entryType, indentCount);
    LevelsUpper(c.level);
    if level != "" && !EqualFold(level, c.level) {
      return Ok(None);
    }
    return Ok(Some(entry));
  }

  /** The counting loop of `parseLogEntry`: tree characters up to the first other character. */
  method CountTreePrefix(remainder: string) returns (indentCount: nat)
    ensures indentCount == LeadingCount(remainder, TreeChars)
  {
    indentCount := 0;
    while indentCount < |remainder|
      invariant indentCount <= |remainder|
      invariant forall k :: 0 <= k < indentCount ==> remainder[k] in TreeChars
    {
      if remainder[indentCount] !in TreeChars {
        break;
      }
      indentCount := indentCount + 1;
    }
  }

  /** The branch of `parseLogEntry` that reads the level and content, with its scan over the symbols. */
  method ClassifyMessage(message: string) returns (c: Classified)
    ensures c == Classify(message)
  {
    if HasPrefix(message, "BEGIN:") {
      return Classified("INFO", TrimSpace(TrimPrefix(message, "BEGIN:")), "begin");
    } else if HasPrefix(message, "END:") {
      return Classified("INFO", TrimSpace(TrimPrefix(message, "END:")), "end");
    }
    // the symbols are the keys of a Go map, visited in no fixed order
    var todo := LevelSymbols.Keys;
    while todo != {}
      invariant todo <= LevelSymbols.Keys
      invariant forall s :: s in LevelSymbols && s !in todo ==> !HasPrefix(message, [s])
      decreases |todo|
    {
      var symbol :| symbol in todo;
      if HasPrefix(message, [symbol]) {
        AtMostOneSymbol(message, symbol, SymbolOf(message).value);
        return Classified(LevelSymbols[symbol], TrimSpace(TrimPrefix(message, [symbol])), "message");
      }
      todo := todo - {symbol};
    }
    return Classified("INFO", message, "message");
  }

  function Lower(s: string): (r: string)
    requires IsUpperAscii(s)
    ensures |r| == |s| && forall i :: 0 <= i < |s| ==> r[i] as int == s[i] as int + 32
  {
    if s == [] then [] else [(s[0] as int + 32) as char] + Lower(s[1..])
  }

  /** A level name written in lower case folds back to it. */
  lemma LowerFolds(l: string)
    requires IsLevel(l)
    ensures IsUpperAscii(l) && Lower(l) != [] && EqualFold(Lower(l), l)
  {
    LevelsUpper(l);
    assert l != [] by {
      assert l == "INFO" || l in LevelSymbols.Values;
    }
  }

  /** A filter written in lower case keeps the records of that level. */
  lemma LowerCaseFilter(entry: LogEntry)
    requires IsLevel(entry.level)
    ensures Filter(entry, Lower(entry.level)) == Some(entry)
  {
    LowerFolds(entry.level);
  }

  /** A filter naming another level drops the record. */
  lemma OtherLevelFilter(entry: LogEntry, level: string)
    requires IsLevel(entry.level) && IsLevel(level) && level != entry.level
    ensures Filter(entry, level) == None
  {
    LevelsUpper(entry.level);
    LevelsUpper(level);
  }

  // ---------------------------------------------------------------- lines the loggers write

  /** " " + the rest, or nothing for an empty rest. */
  function Tail(m: string): string {
    if m == [] then [] else " " + m
  }

  /** What an indent looks like: "│" and spaces, starting with "│  " when not empty. */
  predicate IndentShaped(ind: string) {
    && (forall i :: 0 <= i < |ind| ==> ind[i] == Bar || ind[i] == ' ')
    && (ind != [] ==> |ind| >= 2 && ind[0] == Bar && ind[1] == ' ')
  }

  lemma IndentIsShaped(depth: nat)
    ensures IndentShaped(Indent(depth)) && (Indent(depth) == [] <==> depth == 0)
  {
  }

  /** A logger's line splits into the time stamp and, after one space, the indented text. */
  lemma LineParts(stamp: DateTime, depth: nat, prefix: string, message: string)
    requires ValidDateTime(stamp)
    ensures var line := Line(stamp, depth, prefix, message);
      && |Bytes(line)| >= 19 && ParseTimestamp(Bytes(line)[..19]) == Some(stamp)
      && |line| >= 19 && line[19..] == " " + (Indent(depth) + prefix + " " + message)
  {
    var line := Line(stamp, depth, prefix, message);
    assert line == line[..19] + line[19..];
    BytesAppend(line[..19], line[19..]);
    StampLength(stamp, 1, 2, []);
    FormatThenParse(stamp);
    assert line[19..] == [line[19]] + line[20..];
  }

  /**
   * The indented text of a logger's line after `strings.TrimSpace`: the leading space is gone,
   * and so is the space before an empty message. `x` is the text before the message proper.
   */
  lemma TrimIndented(ind: string, x: string, m: string)
    requires ind == [] || !IsSpace(ind[0])
    requires x != [] && !IsSpace(x[0]) && !IsSpace(x[|x| - 1]) && Trimmed(m)
    ensures TrimSpace(" " + (ind + x + " " + m)) == ind + x + Tail(m)
  {
    var core := ind + x;
    EndsOf(ind, x);
    TrimSpaceSeparated(core, m);
    if m != [] {
      TailJoin(core, m);
    }
  }

  lemma EndsOf(a: string, b: string)
    requires b != []
    ensures (a + b)[0] == (if a == [] then b[0] else a[0]) && (a + b)[|a + b| - 1] == b[|b| - 1]
  {
  }

  lemma TailJoin(core: string, m: string)
    requires m != []
    ensures core + " " + m == core + Tail(m)
  {
  }

  /** The message left after the tree prefix of a line is stripped. */
  lemma StripTree(front: string, rest: string)
    requires forall i :: 0 <= i < |front| ==> front[i] in TreeCutset
    requires rest != [] && rest[0] !in TreeCutset
    ensures TrimLeft(front + rest, TreeCutset) == rest
  {
    TrimLeftSkip(front, rest, TreeCutset);
  }

  lemma TrimSpaceTail(m: string)
    requires Trimmed(m)
    ensures TrimSpace(Tail(m)) == m
  {
    if m != [] {
      TrimLeftOneSpace(m);
    }
  }

  /** Only the indent's first "│" counts below the top level; at the top level the text itself counts. */
  lemma CountIndent(ind: string, rest: string)
    requires IndentShaped(ind)
    ensures LeadingCount(ind + rest, TreeChars) == if ind == [] then LeadingCount(rest, TreeChars) else 1
  {
    var s := ind + rest;
    if ind == [] {
      assert s == rest;
    } else {
      assert s[0] == Bar && s[1] == ' ';
    }
  }

  lemma ClassifyBlock(begin: bool, name: string)
    requires Trimmed(name)
    ensures Classify((if begin then "BEGIN:" else "END:") + Tail(name))
         == Classified("INFO", name, if begin then "begin" else "end")
  {
    var word := if begin then "BEGIN:" else "END:";
    var message := word + Tail(name);
    assert message[..|word|] == word;
    if !begin {
      assert message[0] == 'E';
      assert !HasPrefix(message, "BEGIN:");
    }
    assert TrimPrefix(message, word) == Tail(name);
    TrimSpaceTail(name);
  }

  lemma ClassifySymbol(symbol: char, m: string)
    requires symbol in LevelSymbols && Trimmed(m)
    ensures Classify([symbol] + Tail(m)) == Classified(LevelSymbols[symbol], m, "message")
  {
    SymbolsApart();
    var message := [symbol] + Tail(m);
    assert message[0] == symbol;
    assert !HasPrefix(message, "BEGIN:") && !HasPrefix(message, "END:");
    assert SymbolOf(message) == Some(symbol);
    assert TrimPrefix(message, [symbol]) == Tail(m);
    TrimSpaceTail(m);
  }

  /** `ReadLine` on a line whose stamp and trimmed rest are known. */
  lemma ReadLineUnfold(line: string, t: DateTime, remainder: string)
    requires |Bytes(line)| >= 19 && ParseTimestamp(Bytes(line)[..19]) == Some(t)
    requires |line| >= 19 && TrimSpace(line[19..]) == remainder
    ensures var c := Classify(TrimLeft(remainder, TreeCutset));
      ReadLine(line) == Ok(LogEntry(t, c.level, c.content, c.entryType, LeadingCount(remainder, TreeChars)))
  {
  }

  /** An indent followed by "┌─ " or "└─ " is all tree characters and spaces. */
  lemma BlockFront(ind: string, prefix: string)
    requires IndentShaped(ind)
    requires prefix == BeginPrefix || prefix == EndPrefix
    ensures forall i :: 0 <= i < |ind + (prefix + " ")| ==> (ind + (prefix + " "))[i] in TreeCutset
  {
    var front := ind + (prefix + " ");
    forall i | 0 <= i < |front| ensures front[i] in TreeCutset {
      if i >= |ind| {
        assert front[i] == (prefix + " ")[i - |ind|];
      }
    }
  }

  /** The trimmed text of a block line loses its tree prefix up to the word. */
  lemma BlockStrip(ind: string, prefix: string, rest: string)
    requires IndentShaped(ind)
    requires prefix == BeginPrefix || prefix == EndPrefix
    requires rest != [] && rest[0] !in TreeCutset
    ensures TrimLeft(ind + (prefix + " " + rest), TreeCutset) == rest
  {
    BlockFront(ind, prefix);
    assert ind + (prefix + " " + rest) == ind + (prefix + " ") + rest;
    StripTree(ind + (prefix + " "), rest);
  }

  /** The tree prefix count of a block line: the indent's first "│", or "┌─"/"└─" at the top level. */
  lemma BlockCount(ind: string, prefix: string, rest: string)
    requires IndentShaped(ind)
    requires prefix == BeginPrefix || prefix == EndPrefix
    ensures LeadingCount(ind + (prefix + " " + rest), TreeChars) == if ind == [] then 2 else 1
  {
    var after := prefix + " " + rest;
    CountIndent(ind, after);
    assert after[0] in TreeChars && after[1] in TreeChars && after[2] !in TreeChars;
  }

  /** The indented text of a block line, trimmed. */
  lemma BlockTrim(ind: string, prefix: string, word: string, name: string)
    requires IndentShaped(ind) && Trimmed(name)
    requires prefix == BeginPrefix || prefix == EndPrefix
    requires word != [] && !IsSpace(word[|word| - 1])
    ensures TrimSpace(" " + (ind + prefix + " " + (word + " " + name))) == ind + (prefix + " " + word) + Tail(name)
  {
    var x := prefix + " " + word;
    assert ind + prefix + " " + (word + " " + name) == ind + x + " " + name;
    assert x[0] == prefix[0] && x[|x| - 1] == word[|word| - 1];
    TrimIndented(ind, x, name);
  }

  /** The trimmed text of a block line, stripped of its tree prefix and counted. */
  lemma BlockTree(ind: string, prefix: string, word: string, name: string)
    requires IndentShaped(ind)
    requires prefix == BeginPrefix || prefix == EndPrefix
    requires word != [] && word[0] !in TreeCutset
    ensures var remainder := ind + (prefix + " " + word) + Tail(name);
      && TrimLeft(remainder, TreeCutset) == word + Tail(name)
      && LeadingCount(remainder, TreeChars) == if ind == [] then 2 else 1
  {
    var rest := word + Tail(name);
    assert ind + (prefix + " " + word) + Tail(name) == ind + (prefix + " " + rest);
    BlockStrip(ind, prefix, rest);
    BlockCount(ind, prefix, rest);
  }

  /** A block line reads back as the record its word and name classify to. */
  lemma ParseBlockLineAs(stamp: DateTime, depth: nat, prefix: string, word: string, name: string, text: string, c: Classified)
    requires ValidDateTime(stamp) && Trimmed(name)
    requires prefix == BeginPrefix || prefix == EndPrefix
    requires word != [] && word[0] !in TreeCutset && !IsSpace(word[|word| - 1])
    requires text == word + " " + name
    requires Classify(word + Tail(name)) == c
    ensures ReadLine(Line(stamp, depth, prefix, text)) ==
      Ok(LogEntry(stamp, c.level, c.content, c.entryType, if depth == 0 then 2 else 1))
  {
    IndentIsShaped(depth);
    LineParts(stamp, depth, prefix, text);
    BlockTrim(Indent(depth), prefix, word, name);
    BlockTree(Indent(depth), prefix, word, name);
    ReadLineUnfold(Line(stamp, depth, prefix, text), stamp, Indent(depth) + (prefix + " " + word) + Tail(name));
  }

  /**
   * The line of a logger's `Enter(name)` (or `Exit(name)`) reads back as a "begin" (or "end")
   * record at level INFO with content `name`. The prefix count is 1 below the top level, where
   * only the first "│" of the indent is counted, and 2 at the top level ("┌─" or "└─").
   */
  lemma ParseBlockLine(stamp: DateTime, depth: nat, begin: bool, name: string)
    requires ValidDateTime(stamp) && Trimmed(name)
    ensures var prefix := if begin then BeginPrefix else EndPrefix;
      var tag := if begin then "BEGIN: " else "END: ";
      ReadLine(Line(stamp, depth, prefix, tag + name)) ==
        Ok(LogEntry(stamp, "INFO", name, if begin then "begin" else "end", if depth == 0 then 2 else 1))
  {
    if begin {
      ParseBeginLine(stamp, depth, name);
    } else {
      ParseEndLine(stamp, depth, name);
    }
  }

  /** A block line written as `tag + name`, where the tag is the word and a space. */
  lemma ParseTaggedLine(stamp: DateTime, depth: nat, prefix: string, word: string, tag: string, name: string, c: Classified)
    requires ValidDateTime(stamp) && Trimmed(name)
    requires prefix == BeginPrefix || prefix == EndPrefix
    requires word != [] && word[0] !in TreeCutset && !IsSpace(word[|word| - 1])
    requires tag == word + " " && Classify(word + Tail(name)) == c
    ensures ReadLine(Line(stamp, depth, prefix, tag + name)) ==
      Ok(LogEntry(stamp, c.level, c.content, c.entryType, if depth == 0 then 2 else 1))
  {
    assert tag + name == word + " " + name;
    ParseBlockLineAs(stamp, depth, prefix, word, name, tag + name, c);
  }

  /** The words of block lines: each tag is its word and a space, and no word starts or ends in a cut character. */
  lemma BlockWords()
    ensures "BEGIN: " == "BEGIN:" + " " && "BEGIN:"[0] !in TreeCutset && !IsSpace("BEGIN:"[5])
    ensures "END: " == "END:" + " " && "END:"[0] !in TreeCutset && !IsSpace("END:"[3])
  {
  }

  /** The "begin" half of `ParseBlockLine`. */
  lemma ParseBeginLine(stamp: DateTime, depth: nat, name: string)
    requires ValidDateTime(stamp) && Trimmed(name)
    ensures ReadLine(Line(stamp, depth, BeginPrefix, "BEGIN: " + name)) ==
      Ok(LogEntry(stamp, "INFO", name, "begin", if depth == 0 then 2 else 1))
  {
    var c := Classified("INFO", name, "begin");
    assert Classify("BEGIN:" + Tail(name)) == c by {
      ClassifyBlock(true, name);
    }
    BlockWords();
    ParseTaggedLine(stamp, depth, BeginPrefix, "BEGIN:", "BEGIN: ", name, c);
  }

  /** The "end" half of `ParseBlockLine`. */
  lemma ParseEndLine(stamp: DateTime, depth: nat, name: string)
    requires ValidDateTime(stamp) && Trimmed(name)
    ensures ReadLine(Line(stamp, depth, EndPrefix, "END: " + name)) ==
      Ok(LogEntry(stamp, "INFO", name, "end", if depth == 0 then 2 else 1))
  {
    var c := Classified("INFO", name, "end");
    assert Classify("END:" + Tail(name)) == c by {
      ClassifyBlock(false, name);
    }
    BlockWords();
    ParseTaggedLine(stamp, depth, EndPrefix, "END:", "END: ", name, c);
  }

  /** The trimmed text of a symbol line: stripped up to the symbol, and counted. */
  lemma SymbolRemainder(ind: string, symbol: char, message: string)
    requires IndentShaped(ind) && symbol in LevelSymbols
    ensures TrimLeft(ind + [symbol] + Tail(message), TreeCutset) == [symbol] + Tail(message)
    ensures LeadingCount(ind + [symbol] + Tail(message), TreeChars) == if ind == [] then 0 else 1
  {
    SymbolsApart();
    var stripped := [symbol] + Tail(message);
    assert ind + [symbol] + Tail(message) == ind + stripped;
    StripTree(ind, stripped);
    CountIndent(ind, stripped);
    assert stripped[0] == symbol;
  }

  /**
   * A line a logger writes with a level symbol reads back as a "message" record of that level
   * with the message as content. The prefix count is 0 at the top level and 1 below it.
   */
  lemma ParseSymbolLine(stamp: DateTime, depth: nat, symbol: char, message: string)
    requires ValidDateTime(stamp) && symbol in LevelSymbols && Trimmed(message)
    ensures ReadLine(Line(stamp, depth, [symbol], message)) ==
      Ok(LogEntry(stamp, LevelSymbols[symbol], message, "message", if depth == 0 then 0 else 1))
  {
    SymbolsApart();
    var ind := Indent(depth);
    IndentIsShaped(depth);
    LineParts(stamp, depth, [symbol], message);
    TrimIndented(ind, [symbol], message);
    SymbolRemainder(ind, symbol, message);
    ClassifySymbol(symbol, message);
    ReadLineUnfold(Line(stamp, depth, [symbol], message), stamp, ind + [symbol] + Tail(message));
  }

  // ---------------------------------------------------------------- the log cache and pagination

  function Min(a: int, b: int): int {
    if a <= b then a else b
  }

  /**
   * `getPaginatedLogs`: the page-th run of `pageSize` records (pages count from 1), and whether
   * records follow it; a page that starts past the end is empty with nothing after it.
   */
  function PageOf(logs: seq<LogEntry>, pageSize: nat, page: int): (r: (seq<LogEntry>, bool))
    requires page >= 1
    ensures |r.0| <= pageSize
    ensures r.0 != [] ==> (page - 1) * pageSize + |r.0| <= |logs|
    ensures forall i :: 0 <= i < |r.0| ==> r.0[i] == logs[(page - 1) * pageSize + i]
    ensures r.1 <==> (page - 1) * pageSize + pageSize < |logs|
  {
    var start := PageStart(pageSize, page);
    if start >= |logs| then ([], false)
    else
      var end := Min(start + pageSize, |logs|);
      (logs[start..end], end < |logs|)
  }

  /** Where page `page` starts. */
  function PageStart(pageSize: nat, page: int): (start: nat)
    requires page >= 1
    ensures start == (page - 1) * pageSize
  {
    (page - 1) * pageSize
  }

  /** The records of pages 1 through `k`, one after the other. */
  function Pages(logs: seq<LogEntry>, pageSize: nat, k: nat): seq<LogEntry> {
    if k == 0 then [] else Pages(logs, pageSize, k - 1) + PageOf(logs, pageSize, k).0
  }

  /** The first `k` pages are exactly the first `k * pageSize` records: no record is skipped or repeated. */
  lemma {:induction false} PagesCover(logs: seq<LogEntry>, pageSize: nat, k: nat)
    ensures Pages(logs, pageSize, k) == logs[..Min(k * pageSize, |logs|)]
  {
    if k > 0 {
      PagesCover(logs, pageSize, k - 1);
      var start := (k - 1) * pageSize;
      assert k * pageSize == start + pageSize;
      if start >= |logs| {
        assert Min(start, |logs|) == |logs| == Min(k * pageSize, |logs|);
      } else {
        assert logs[..start] + logs[start..Min(k * pageSize, |logs|)] == logs[..Min(k * pageSize, |logs|)];
      }
    }
  }

  /** `hasMore` says exactly whether the next page holds any record. */
  lemma HasMoreMeansNextPage(logs: seq<LogEntry>, pageSize: nat, page: int)
    requires page >= 1 && pageSize > 0
    ensures PageOf(logs, pageSize, page).1 <==> PageOf(logs, pageSize, page + 1).0 != []
  {
    var next := PageOf(logs, pageSize, page + 1).0;
    assert (page + 1 - 1) * pageSize == (page - 1) * pageSize + pageSize;
    if page * pageSize < |logs| {
      assert next[0] == logs[page * pageSize];
    }
  }

  /** The server's cache of parsed log records, served a page at a time. */
  class LogCache {
    var logs: seq<LogEntry>
    var pageSize: nat

    /** The cache `initLogCacheIfNeeded` creates: no records, pages of 100. */
    constructor ()
      ensures logs == [] && pageSize == 100
    {
      logs := [];
      pageSize := 100;
    }
  }

  /** The API server: the forest it serves, its configuration and its (lazily created) log cache. */
  class Server {
    var forest: Node
    var config: ServerConfig
    var logCache: LogCache?

    constructor (forest: Node, config: ServerConfig)
      ensures this.forest == forest && this.config == config && logCache == null
    {
      this.forest := forest;
      this.config := config;
      logCache := null;
    }

    /** `initLogCacheIfNeeded`: a cache is created once and then kept. */
    method InitLogCacheIfNeeded()
      modifies this`logCache
      ensures logCache != null
      ensures old(logCache) != null ==> logCache == old(logCache)
      ensures old(logCache) == null ==> fresh(logCache) && logCache.logs == [] && logCache.pageSize == 100
    {
      if logCache == null {
        logCache := new LogCache();
      }
    }

    /** `getPaginatedLogs`; a page below 1 makes the source slice from a negative index and panic. */
    method GetPaginatedLogs(page: int) returns (logs: seq<LogEntry>, hasMore: bool)
      requires logCache != null && page >= 1
      ensures (logs, hasMore) == PageOf(logCache.logs, logCache.pageSize, page)
    {
      var all := logCache.logs;
      var start := (page - 1) * logCache.pageSize;
      var end := start + logCache.pageSize;
      if start >= |all| {
        return [], false;
      }
      if end > |all| {
        end := |all|;
      }
      hasMore := end < |all|;
      return all[start..end], hasMore;
    }

    /** `UpdateSettings`: the user's organization, then the non-empty settings over the configuration. */
    method UpdateSettings(userId: string, settings: ServerConfig)
      modifies this`config, forest`users
      ensures forest.users == SetOrganization(old(forest.users), userId, settings.organization)
      ensures config == MergeConfig(old(config), settings)
    {
      var users := UpdateOrganization(forest.users, userId, settings.organization);
      forest.users := users;
      config := MergeSettings(config, settings);
    }

    /** `getNodeFromPath` on a cache miss: the walk from the forest root. */
    method GetNodeFromPath(path: string) returns (r: Result<Node, Error>)
      requires forest.Valid()
      ensures path == "" ==> r == Ok(forest)
      ensures path != "" && r.Ok? ==> PathWalk.Reaches(forest, Split(path, "/"), r.value)
      ensures path != "" && r.Err? ==> r.error == NodeNotFound(path) && PathWalk.Blocked(forest, Split(path, "/"))
    {
      r := PathWalk.Walk(forest, path);
    }
  }

  // ---------------------------------------------------------------- UpdateSettings

  /** The user loop of `UpdateSettings`: the first user with that ID gets the organization. */
  method UpdateOrganization(users: seq<User>, userId: string, organization: string) returns (r: seq<User>)
    ensures r == SetOrganization(users, userId, organization)
  {
    r := users;
    var i := 0;
    while i < |r|
      invariant 0 <= i <= |r| && r == users
      invariant forall k :: 0 <= k < i ==> r[k].id != userId
    {
      if r[i].id == userId {
        r := r[i := r[i].(organization := organization)];
        break;
      }
      i := i + 1;
    }
  }

  /** The field updates of `UpdateSettings`, each guarded by a non-empty setting. */
  method MergeSettings(current: ServerConfig, settings: ServerConfig) returns (config: ServerConfig)
    ensures config == MergeConfig(current, settings)
  {
    config := current;
    if settings.process.serverPort != "" {
      config := config.(process := config.process.(serverPort := settings.process.serverPort));
    }
    if settings.process.dashboardPort != "" {
      config := config.(process := config.process.(dashboardPort := settings.process.dashboardPort));
    }
    if settings.process.serverUrl != "" {
      config := config.(process := config.process.(serverUrl := settings.process.serverUrl));
    }
    if settings.process.databasePath != "" {
      config := config.(process := config.process.(databasePath := settings.process.databasePath));
    }
    if settings.process.logPath != "" {
      config := config.(process := config.process.(logPath := settings.process.logPath));
    }
    if settings.organization != "" {
      config := config.(organization := settings.organization);
    }
    if settings.phone != "" {
      config := config.(phone := settings.phone);
    }
  }

  /** The user with that ID (the first one, when IDs repeat) gets the organization, even an empty one. */
  function SetOrganization(users: seq<User>, userId: string, organization: string): (r: seq<User>)
    ensures |r| == |users|
  {
    var i := NodeSpec.FirstUser(users, userId);
    if i == -1 then users else users[i := users[i].(organization := organization)]
  }

  lemma SetOrganizationEffect(users: seq<User>, userId: string, organization: string)
    ensures var r := SetOrganization(users, userId, organization);
      && (forall k :: 0 <= k < |users| && users[k].id != userId ==> r[k] == users[k])
      && ((forall k :: 0 <= k < |users| ==> users[k].id != userId) ==> r == users)
      && (exists k :: 0 <= k < |users| && users[k].id == userId) ==>
           exists k :: 0 <= k < |r| && r[k] == users[k].(organization := organization) && users[k].id == userId
  {
  }

  /** A setting replaces the configured value only when it is not empty. */
  function Pick(current: string, setting: string): (r: string)
    ensures setting != "" ==> r == setting
    ensures setting == "" ==> r == current
  {
    if setting != "" then setting else current
  }

  /** The configuration after `UpdateSettings`: ports, URL, paths, organization and phone may change. */
  function MergeConfig(c: ServerConfig, s: ServerConfig): (r: ServerConfig)
    ensures r.databaseName == c.databaseName
    ensures r.process.id == c.process.id && r.process.pid == c.process.pid && r.process.dbName == c.process.dbName
    ensures r.process.dashboardUrl == c.process.dashboardUrl && r.process.dashboardUp == c.process.dashboardUp
  {
    c.(organization := Pick(c.organization, s.organization),
       phone := Pick(c.phone, s.phone),
       process := c.process.(
         serverPort := Pick(c.process.serverPort, s.process.serverPort),
         dashboardPort := Pick(c.process.dashboardPort, s.process.dashboardPort),
         serverUrl := Pick(c.process.serverUrl, s.process.serverUrl),
         databasePath := Pick(c.process.databasePath, s.process.databasePath),
         logPath := Pick(c.process.logPath, s.process.logPath)))
  }

  /** Settings with nothing filled in leave the configuration as it is. */
  lemma MergeEmpty(c: ServerConfig, s: ServerConfig)
    requires s.organization == "" && s.phone == ""
    requires s.process.serverPort == "" && s.process.dashboardPort == "" && s.process.serverUrl == ""
    requires s.process.databasePath == "" && s.process.logPath == ""
    ensures MergeConfig(c, s) == c
  {
  }

  /** Applying the same settings twice is the same as once. */
  lemma MergeIdempotent(c: ServerConfig, s: ServerConfig)
    ensures MergeConfig(MergeConfig(c, s), s) == MergeConfig(c, s)
  {
  }

  /** A later update wins on every field it fills in; the earlier one survives elsewhere. */
  lemma MergeTwice(c: ServerConfig, s1: ServerConfig, s2: ServerConfig)
    ensures var r := MergeConfig(MergeConfig(c, s1), s2);
      && r.organization == Pick(Pick(c.organization, s1.organization), s2.organization)
      && r.process.serverPort == Pick(Pick(c.process.serverPort, s1.process.serverPort), s2.process.serverPort)
  {
  }
}
