/** The server-communication log: LogLine values and the LogStorage list they are appended to. */
module Log {
  import opened Wrappers
  import opened EditorHints

  /** One log entry; the message may be null. The timestamp is the clock reading taken when the
      line was made, passed in as `now`. */
  datatype LogLine = LogLine(level: Severity, timestamp: int, message: Option<string>)

  /** LogLine.error / warning / info. */
  function ErrorLine(message: Option<string>, now: int): (l: LogLine)
    ensures l.level == ERROR && l.timestamp == now && l.message == message
  {
    LogLine(ERROR, now, message)
  }

  function WarningLine(message: Option<string>, now: int): (l: LogLine)
    ensures l.level == WARNING && l.timestamp == now && l.message == message
  {
    LogLine(WARNING, now, message)
  }

  function InfoLine(message: Option<string>, now: int): (l: LogLine)
    ensures l.level == HINT && l.timestamp == now && l.message == message
  {
    LogLine(HINT, now, message)
  }

  /** The enum constant's name, as Java prints it. */
  function LevelName(s: Severity): string {
    match s
    case ERROR => "ERROR"
    case WARNING => "WARNING"
    case HINT => "HINT"
  }

  function DigitChar(d: nat): char
    requires d < 10
  {
    "0123456789"[d]
  }

  predicate IsDigit(c: char) {
    '0' <= c <= '9'
  }

  /** Long.toString for a non-negative value. */
  function NatToString(n: nat): (s: string)
    ensures s != [] && forall i :: 0 <= i < |s| ==> IsDigit(s[i])
    decreases n
  {
    if n < 10 then [DigitChar(n)] else NatToString(n / 10) + [DigitChar(n % 10)]
  }

  /** Long.toString: decimal digits with a leading '-' for a negative value. */
  function IntToString(i: int): (s: string)
    ensures s != [] && ' ' !in s
  {
    if i < 0 then "-" + NatToString(-i) else NatToString(i)
  }

  /** String concatenation prints a null message as "null". */
  function MessageText(m: Option<string>): string {
    if m.None? then "null" else m.value
  }

  /** LogLine.toString: `level + " " + timestamp + " {" + message + "}"`. */
  function ToString(l: LogLine): string {
    LevelName(l.level) + " " + IntToString(l.timestamp) + " {" + MessageText(l.message) + "}"
  }

  function ParseNat(s: string): nat
    requires forall i :: 0 <= i < |s| ==> IsDigit(s[i])
    decreases |s|
  {
    if s == [] then 0
    else
      assert IsDigit(s[|s| - 1]);
      ParseNat(s[..|s| - 1]) * 10 + (s[|s| - 1] as int - '0' as int)
  }

  function ParseInt(s: string): Option<int> {
    if s != [] && s[0] == '-' && forall i :: 1 <= i < |s| ==> IsDigit(s[i]) then Some(0 - ParseNat(s[1..]) as int)
    else if forall i :: 0 <= i < |s| ==> IsDigit(s[i]) then Some(ParseNat(s))
    else None
  }

  function ParseLevel(s: string): Option<Severity> {
    if s == "ERROR" then Some(ERROR) else if s == "WARNING" then Some(WARNING) else if s == "HINT" then Some(HINT) else None
  }

  /** The text before and after the first occurrence of `c` in `s`. */
  function SplitFirst(s: string, c: char): Option<(string, string)>
    decreases |s|
  {
    if s == [] then None
    else if s[0] == c then Some(([], s[1..]))
    else
      var r := SplitFirst(s[1..], c);
      if r.None? then None else Some(([s[0]] + r.value.0, r.value.1))
  }

  /** The message between the braces of `{message}`. */
  function Braced(s: string): Option<string> {
    if |s| < 2 || s[0] != '{' || s[|s| - 1] != '}' then None else Some(s[1..|s| - 1])
  }

  /** Reads a printed log line back: the text up to the first blank is the level, the text up
      to the second blank the timestamp, and what stands between the braces the message. */
  function ParseLine(s: string): Option<(Severity, int, string)> {
    var first := SplitFirst(s, ' ');
    if first.None? then None
    else
      var second := SplitFirst(first.value.1, ' ');
      if second.None? then None
      else
        var level := ParseLevel(first.value.0);
        var stamp := ParseInt(second.value.0);
        var message := Braced(second.value.1);
        if level.None? || stamp.None? || message.None? then None
        else Some((level.value, stamp.value, message.value))
  }

  lemma {:induction false} NatToStringRoundTrip(n: nat)
    ensures ParseNat(NatToString(n)) == n
    decreases n
  {
    if n >= 10 {
      NatToStringRoundTrip(n / 10);
      var s := NatToString(n);
      assert s[..|s| - 1] == NatToString(n / 10);
    }
  }

  lemma IntToStringRoundTrip(i: int)
    ensures ParseInt(IntToString(i)) == Some(i)
  {
    if i < 0 {
      NatToStringRoundTrip(-i);
      assert IntToString(i)[1..] == NatToString(-i);
    } else {
      NatToStringRoundTrip(i);
    }
  }

  lemma {:induction false} SplitFirstAt(a: string, c: char, b: string)
    requires c !in a
    ensures SplitFirst(a + [c] + b, c) == Some((a, b))
    decreases |a|
  {
    if a != [] {
      assert (a + [c] + b)[1..] == a[1..] + [c] + b;
      SplitFirstAt(a[1..], c, b);
      assert [a[0]] + a[1..] == a;
    }
  }

  lemma ParseLineOf(name: string, stamp: string, msg: string)
    requires ' ' !in name && ' ' !in stamp
    requires ParseLevel(name).Some? && ParseInt(stamp).Some?
    ensures ParseLine(name + " " + stamp + " {" + msg + "}") == Some((ParseLevel(name).value, ParseInt(stamp).value, msg))
  {
    var tail := "{" + msg + "}";
    assert name + " " + stamp + " {" + msg + "}" == name + [' '] + (stamp + [' '] + tail);
    SplitFirstAt(name, ' ', stamp + [' '] + tail);
    SplitFirstAt(stamp, ' ', tail);
    assert Braced(tail) == Some(msg);
  }

  /** The printed form loses nothing but the difference between a null message and "null": the
      level, the timestamp and the message text are read back exactly. */
  lemma ToStringRoundTrip(l: LogLine)
    ensures ParseLine(ToString(l)) == Some((l.level, l.timestamp, MessageText(l.message)))
  {
    var name, stamp := LevelName(l.level), IntToString(l.timestamp);
    IntToStringRoundTrip(l.timestamp);
    assert ParseLevel(name) == Some(l.level);
    assert ' ' !in name;
    ParseLineOf(name, stamp, MessageText(l.message));
  }

  /** No two neighbouring lines carry equal messages (null-safe equality). */
  ghost predicate NoAdjacentRepeats(lines: seq<LogLine>) {
    forall i :: 0 <= i < |lines| - 1 ==> lines[i].message != lines[i + 1].message
  }

  /** The lines after `add(line)`: unchanged when logging is disabled or the message equals the
      last line's message; otherwise the line is appended. */
  function Added(lines: seq<LogLine>, enabled: bool, line: LogLine): seq<LogLine> {
    if !enabled then lines
    else if lines != [] && lines[|lines| - 1].message == line.message then lines
    else lines + [line]
  }

  /** add never removes or reorders lines, adds at most one, and keeps neighbours distinct. */
  lemma AddedKeepsLines(lines: seq<LogLine>, enabled: bool, line: LogLine)
    ensures lines <= Added(lines, enabled, line) && |Added(lines, enabled, line)| <= |lines| + 1
    ensures |Added(lines, enabled, line)| == |lines| + 1 <==>
              enabled && (lines == [] || lines[|lines| - 1].message != line.message)
    ensures NoAdjacentRepeats(lines) ==> NoAdjacentRepeats(Added(lines, enabled, line))
  {
  }

  /** Adding the same message twice in a row leaves one line. */
  lemma {:induction false} AddTwiceOnce(lines: seq<LogLine>, enabled: bool, a: LogLine, b: LogLine)
    requires a.message == b.message
    ensures Added(Added(lines, enabled, a), enabled, b) == Added(lines, enabled, a)
  {
  }

  /** A cell of the log table: a level, a timestamp, a message, or text. */
  datatype Cell = LevelCell(level: Severity) | TimestampCell(timestamp: int) | MessageCell(message: Option<string>) | TextCell(text: string)

  /** LogStorage.ALL: the log lines, the enable flag and the console-echo flag. `console` is what
      was printed to standard output. `maxCapacity` is declared but never consulted. */
  class LogStorage {
    const maxCapacity: int
    var enabled: bool
    var consoleLogging: bool
    var lines: seq<LogLine>
    var console: seq<string>

    ghost predicate Valid()
      reads this
    {
      NoAdjacentRepeats(lines)
    }

    constructor ()
      ensures Valid()
      ensures maxCapacity == 5000 && !enabled && !consoleLogging && lines == [] && console == []
    {
      maxCapacity := 5000;
      enabled, consoleLogging := false, false;
      lines, console := [], [];
    }

    method Clear()
      requires Valid()
      modifies this
      ensures Valid()
      ensures lines == [] && enabled == old(enabled) && consoleLogging == old(consoleLogging) && console == old(console)
    {
      lines := [];
    }

    method EnableLogging()
      modifies this
      ensures enabled && lines == old(lines) && consoleLogging == old(consoleLogging) && console == old(console)
    {
      enabled := true;
    }

    method DisableLogging()
      modifies this
      ensures !enabled && lines == old(lines) && consoleLogging == old(consoleLogging) && console == old(console)
    {
      enabled := false;
    }

    method ToggleLogging()
      modifies this
      ensures enabled == !old(enabled) && lines == old(lines) && consoleLogging == old(consoleLogging) && console == old(console)
    {
      enabled := !enabled;
    }

    method SetLoggingEnabled(value: bool)
      modifies this
      ensures enabled == value && lines == old(lines) && consoleLogging == old(consoleLogging) && console == old(console)
    {
      enabled := value;
    }

    method SetConsoleLogging(value: bool)
      modifies this
      ensures consoleLogging == value && lines == old(lines) && enabled == old(enabled) && console == old(console)
    {
      consoleLogging := value;
    }

    /** add: drop the line when disabled or when it repeats the last message; otherwise append
        it, and echo it to the console when console logging is on. */
    method Add(line: LogLine)
      requires Valid()
      modifies this
      ensures Valid()
      ensures lines == Added(old(lines), old(enabled), line)
      ensures console == if |lines| == |old(lines)| || !consoleLogging then old(console) else old(console) + [ToString(line)]
      ensures enabled == old(enabled) && consoleLogging == old(consoleLogging)
    {
      AddedKeepsLines(lines, enabled, line);
      if !enabled {
        return;
      }
      if lines != [] && lines[|lines| - 1].message == line.message {
        return;
      }
      lines := lines + [line];
      if consoleLogging {
        console := console + [ToString(line)];
      }
    }

    method Error(message: Option<string>, now: int)
      requires Valid()
      modifies this
      ensures Valid()
      ensures lines == Added(old(lines), old(enabled), ErrorLine(message, now))
      ensures console == if |lines| == |old(lines)| || !consoleLogging then old(console) else old(console) + [ToString(ErrorLine(message, now))]
      ensures enabled == old(enabled) && consoleLogging == old(consoleLogging)
    {
      Add(ErrorLine(message, now));
    }

    method Warning(message: Option<string>, now: int)
      requires Valid()
      modifies this
      ensures Valid()
      ensures lines == Added(old(lines), old(enabled), WarningLine(message, now))
      ensures console == if |lines| == |old(lines)| || !consoleLogging then old(console) else old(console) + [ToString(WarningLine(message, now))]
      ensures enabled == old(enabled) && consoleLogging == old(consoleLogging)
    {
      Add(WarningLine(message, now));
    }

    method Info(message: Option<string>, now: int)
      requires Valid()
      modifies this
      ensures Valid()
      ensures lines == Added(old(lines), old(enabled), InfoLine(message, now))
      ensures console == if |lines| == |old(lines)| || !consoleLogging then old(console) else old(console) + [ToString(InfoLine(message, now))]
      ensures enabled == old(enabled) && consoleLogging == old(consoleLogging)
    {
      Add(InfoLine(message, now));
    }

    /** LogTableModel.getRowCount / getColumnCount. */
    function GetRowCount(): (n: nat)
      reads this
      ensures n == |lines|
    {
      |lines|
    }

    /** LogTableModel.getColumnName. */
    function GetColumnName(column: int): (name: string)
      ensures column == 0 <==> name == "severity"
      ensures column == 1 <==> name == "timestamp"
      ensures column == 2 <==> name == "message"
      ensures !(0 <= column <= 2) <==> name == "raw"
    {
      if column == 0 then "severity" else if column == 1 then "timestamp" else if column == 2 then "message" else "raw"
    }

    function GetColumnCount(): (n: nat)
      ensures n == 3
    {
      3
    }

    /** LogTableModel.getValueAt: level, timestamp or message of a row in range; "column c" for
        another column; "row r" for a row past the end. A negative row is looked up and faults. */
    function GetValueAt(row: int, column: int): (c: Result<Cell>)
      reads this
      ensures row < 0 ==> c == Failure(IndexOutOfBounds)
      ensures row >= |lines| ==> c == Success(TextCell("row " + IntToString(row)))
      ensures 0 <= row < |lines| && column == 0 ==> c == Success(LevelCell(lines[row].level))
      ensures 0 <= row < |lines| && column == 1 ==> c == Success(TimestampCell(lines[row].timestamp))
      ensures 0 <= row < |lines| && column == 2 ==> c == Success(MessageCell(lines[row].message))
      ensures 0 <= row < |lines| && !(0 <= column <= 2) ==> c == Success(TextCell("column " + IntToString(column)))
    {
      if row >= |lines| then Success(TextCell("row " + IntToString(row)))
      else if row < 0 then Failure(IndexOutOfBounds)
      else if column == 0 then Success(LevelCell(lines[row].level))
      else if column == 1 then Success(TimestampCell(lines[row].timestamp))
      else if column == 2 then Success(MessageCell(lines[row].message))
      else Success(TextCell("column " + IntToString(column)))
    }
  }
}
