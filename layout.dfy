/** The text the logger produces: the level-name table, the columnar line
    layout of `SysLog._format`, `single_line` and `LazyFormat`. */
module Layout {
  import opened Options
  import opened Text

  /** A syslog priority, LOG_EMERG (0) to LOG_DEBUG (7); lower is more severe. */
  type Severity = l: int | 0 <= l <= 7

  const EMERGENCY: Severity := 0
  const ALERT: Severity := 1
  const CRITICAL: Severity := 2
  const ERROR: Severity := 3
  const WARNING: Severity := 4
  const NOTICE: Severity := 5
  const INFO: Severity := 6
  const DEBUG: Severity := 7

  /** `_named_level`, indexed by priority. */
  const LEVEL_NAMES: seq<string> :=
    ["EMERGENCY", "ALERT", "CRITICAL", "ERROR", "WARNING", "NOTICE", "INFO", "DEBUG"]

  /** Width of the level column, `%-9s`. */
  const LEVEL_WIDTH: nat := 9
  /** Width of the pid column, `%-6d`. */
  const PID_WIDTH: nat := 6
  /** Width of the source column, `%-13s`. */
  const SOURCE_WIDTH: nat := 13

  function LevelName(l: Severity): (r: string)
    ensures 0 < |r| <= LEVEL_WIDTH
    ensures forall i :: 0 <= i < |r| ==> 'A' <= r[i] <= 'Z'
  {
    LEVEL_NAMES[l]
  }

  /** The priority whose name is `name`, if there is one. */
  function LevelNamed(name: string): (r: Option<Severity>)
    ensures r.Some? ==> LevelName(r.value) == name
    ensures r.None? ==> forall l: Severity :: LevelName(l) != name
  {
    if name == LEVEL_NAMES[0] then Some(0)
    else if name == LEVEL_NAMES[1] then Some(1)
    else if name == LEVEL_NAMES[2] then Some(2)
    else if name == LEVEL_NAMES[3] then Some(3)
    else if name == LEVEL_NAMES[4] then Some(4)
    else if name == LEVEL_NAMES[5] then Some(5)
    else if name == LEVEL_NAMES[6] then Some(6)
    else if name == LEVEL_NAMES[7] then Some(7)
    else None
  }

  /** Names are distinct, so a name gives back its priority. */
  lemma LevelNamedName(l: Severity)
    ensures LevelNamed(LevelName(l)) == Some(l)
  {
    if l == 0 {} else if l == 1 {} else if l == 2 {} else if l == 3 {}
    else if l == 4 {} else if l == 5 {} else if l == 6 {} else {}
  }

  /** `'%s %-9s %-6d %-13s %s' % (now, _named_level[level], pid, source, message)`,
      where `now` is the already rendered timestamp. */
  function FormatLine(now: string, level: Severity, pid: nat, source: string, message: string): string
  {
    Spaced(now, LeftJustify(LevelName(level), LEVEL_WIDTH), LeftJustify(Decimal(pid), PID_WIDTH),
           LeftJustify(source, SOURCE_WIDTH), message)
  }

  function Max(a: nat, b: nat): nat { if a < b then b else a }

  /** Right-stripping a padded word gives the word back. */
  lemma {:induction false} StripRightPadded(s: string, w: nat)
    requires s == [] || !IsSpace(s[|s| - 1])
    ensures StripRight(LeftJustify(s, w)) == s
    decreases w
  {
    if |s| < w {
      var t := LeftJustify(s, w);
      var u := LeftJustify(s, w - 1);
      assert t[..|t| - 1] == u;
      StripRightPadded(s, w - 1);
    }
  }

  /** A field followed by one space and the rest of the line, read at
      offset `x`. */
  lemma ColumnAt(r: string, x: nat, col: string, rest: string)
    requires x <= |r| && r[x..] == col + " " + rest
    ensures x + |col| < |r| && r[x..x + |col|] == col && r[x + |col|] == ' '
    ensures r[x + |col| + 1..] == rest
  {
    var t := col + " " + rest;
    assert r[x..x + |col|] == t[..|col|];
    assert r[x + |col| + 1..] == t[|col| + 1..];
  }

  /** Five fields separated by single spaces. */
  function Spaced(now: string, a: string, b: string, c: string, d: string): string
  {
    now + " " + (a + " " + (b + " " + (c + " " + d)))
  }

  lemma FirstField(now: string, a: string, b: string, c: string, d: string)
    ensures var r := Spaced(now, a, b, c, d);
      && |r| == |now| + 1 + |a| + 1 + |b| + 1 + |c| + 1 + |d|
      && r[..|now|] == now && r[|now|] == ' '
      && r[|now| + 1..] == a + " " + (b + " " + (c + " " + d))
  {
    var r := Spaced(now, a, b, c, d);
    assert r[0..] == r;
    ColumnAt(r, 0, now, a + " " + (b + " " + (c + " " + d)));
  }

  lemma SecondField(now: string, a: string, b: string, c: string, d: string)
    ensures var r := Spaced(now, a, b, c, d);
      var p := |now| + 1 + |a| + 1;
      && p <= |r| && r[|now| + 1..p - 1] == a && r[p - 1] == ' '
      && r[p..] == b + " " + (c + " " + d)
  {
    FirstField(now, a, b, c, d);
    ColumnAt(Spaced(now, a, b, c, d), |now| + 1, a, b + " " + (c + " " + d));
  }

  lemma ThirdField(now: string, a: string, b: string, c: string, d: string)
    ensures var r := Spaced(now, a, b, c, d);
      var q := |now| + 1 + |a| + 1 + |b| + 1;
      && q <= |r| && r[q - |b| - 1..q - 1] == b && r[q - 1] == ' '
      && r[q..] == c + " " + d
  {
    SecondField(now, a, b, c, d);
    ColumnAt(Spaced(now, a, b, c, d), |now| + 1 + |a| + 1, b, c + " " + d);
  }

  lemma FourthField(now: string, a: string, b: string, c: string, d: string)
    ensures var r := Spaced(now, a, b, c, d);
      var m := |now| + 1 + |a| + 1 + |b| + 1 + |c| + 1;
      && m <= |r| && r[m - |c| - 1..m - 1] == c && r[m - 1] == ' '
      && r[m..] == d
  {
    ThirdField(now, a, b, c, d);
    ColumnAt(Spaced(now, a, b, c, d), |now| + 1 + |a| + 1 + |b| + 1, c, d);
  }

  /** Where the pid column of a line stamped `now` starts. */
  function PidStart(now: string): nat { |now| + 1 + LEVEL_WIDTH + 1 }

  /** Where the source column starts. */
  function SourceStart(now: string, pid: nat): nat { PidStart(now) + Max(|Decimal(pid)|, PID_WIDTH) + 1 }

  /** Where the message starts. */
  function MessageStart(now: string, pid: nat, source: string): nat
  {
    SourceStart(now, pid) + Max(|source|, SOURCE_WIDTH) + 1
  }

  /** The widths of the padded columns fix where each column starts. */
  lemma Widths(now: string, level: Severity, pid: nat, source: string)
    ensures |LeftJustify(LevelName(level), LEVEL_WIDTH)| == LEVEL_WIDTH
    ensures PidStart(now) == |now| + 1 + |LeftJustify(LevelName(level), LEVEL_WIDTH)| + 1
    ensures SourceStart(now, pid) == PidStart(now) + |LeftJustify(Decimal(pid), PID_WIDTH)| + 1
    ensures MessageStart(now, pid, source) == SourceStart(now, pid) + |LeftJustify(source, SOURCE_WIDTH)| + 1
  {
  }

  /** The timestamp, the line's length and the message tail. */
  lemma OuterColumns(now: string, level: Severity, pid: nat, source: string, message: string)
    ensures var r := FormatLine(now, level, pid, source, message);
      && |r| == MessageStart(now, pid, source) + |message|
      && r[..|now|] == now && r[|now|] == ' '
      && r[MessageStart(now, pid, source) - 1] == ' '
      && r[MessageStart(now, pid, source)..] == message
  {
    var name := LeftJustify(LevelName(level), LEVEL_WIDTH);
    var digits := LeftJustify(Decimal(pid), PID_WIDTH);
    var src := LeftJustify(source, SOURCE_WIDTH);
    Widths(now, level, pid, source);
    FirstField(now, name, digits, src, message);
    FourthField(now, name, digits, src, message);
  }

  /** The level column: the padded level name, then one space. */
  lemma LevelSlot(now: string, level: Severity, pid: nat, source: string, message: string)
    ensures var r := FormatLine(now, level, pid, source, message);
      && PidStart(now) <= |r|
      && r[|now| + 1..PidStart(now) - 1] == LeftJustify(LevelName(level), LEVEL_WIDTH)
      && r[PidStart(now) - 1] == ' '
  {
    Widths(now, level, pid, source);
    SecondField(now, LeftJustify(LevelName(level), LEVEL_WIDTH), LeftJustify(Decimal(pid), PID_WIDTH),
                LeftJustify(source, SOURCE_WIDTH), message);
  }

  /** The pid column: the padded pid digits, then one space. */
  lemma PidSlot(now: string, level: Severity, pid: nat, source: string, message: string)
    ensures var r := FormatLine(now, level, pid, source, message);
      && PidStart(now) <= SourceStart(now, pid) - 1 && SourceStart(now, pid) <= |r|
      && r[PidStart(now)..SourceStart(now, pid) - 1] == LeftJustify(Decimal(pid), PID_WIDTH)
      && r[SourceStart(now, pid) - 1] == ' '
  {
    Widths(now, level, pid, source);
    ThirdField(now, LeftJustify(LevelName(level), LEVEL_WIDTH), LeftJustify(Decimal(pid), PID_WIDTH),
               LeftJustify(source, SOURCE_WIDTH), message);
  }

  /** The source column: the padded source, then one space. */
  lemma SourceSlot(now: string, level: Severity, pid: nat, source: string, message: string)
    ensures var r := FormatLine(now, level, pid, source, message);
      && SourceStart(now, pid) <= MessageStart(now, pid, source) - 1 && MessageStart(now, pid, source) <= |r|
      && r[SourceStart(now, pid)..MessageStart(now, pid, source) - 1] == LeftJustify(source, SOURCE_WIDTH)
  {
    Widths(now, level, pid, source);
    FourthField(now, LeftJustify(LevelName(level), LEVEL_WIDTH), LeftJustify(Decimal(pid), PID_WIDTH),
                LeftJustify(source, SOURCE_WIDTH), message);
  }

  /** A column holding `word` left-justified starts with the word and is
      spaces after it. */
  lemma PaddedColumn(r: string, start: nat, end: nat, word: string, w: nat)
    requires start <= end <= |r| && r[start..end] == LeftJustify(word, w)
    ensures start + |word| <= end && r[start..start + |word|] == word
    ensures forall i :: start + |word| <= i < end ==> r[i] == ' '
  {
    var col := LeftJustify(word, w);
    assert r[start..start + |word|] == col[..|word|];
    forall i | start + |word| <= i < end ensures r[i] == ' ' {
      assert r[i] == col[i - start];
    }
  }

  /** The layout of a formatted line: the timestamp, one space, the level
      name padded with spaces to nine characters (no name is longer), one
      space, the pid digits padded with spaces to six, one space, the whole
      source however long padded with spaces to thirteen, one space, and the
      message as the tail of the line. */
  lemma FormatColumns(now: string, level: Severity, pid: nat, source: string, message: string)
    ensures var r := FormatLine(now, level, pid, source, message);
      var p, q, m := PidStart(now), SourceStart(now, pid), MessageStart(now, pid, source);
      && |r| == m + |message|
      && r[..|now|] == now
      && r[|now|] == ' ' && r[p - 1] == ' ' && r[q - 1] == ' ' && r[m - 1] == ' '
      && r[|now| + 1..|now| + 1 + |LevelName(level)|] == LevelName(level)
      && r[p..p + |Decimal(pid)|] == Decimal(pid)
      && r[q..q + |source|] == source
      && r[m..] == message
      && (forall i :: |now| + 1 + |LevelName(level)| <= i < p - 1 ==> r[i] == ' ')
      && (forall i :: p + |Decimal(pid)| <= i < q - 1 ==> r[i] == ' ')
      && (forall i :: q + |source| <= i < m - 1 ==> r[i] == ' ')
  {
    var r := FormatLine(now, level, pid, source, message);
    var p, q, m := PidStart(now), SourceStart(now, pid), MessageStart(now, pid, source);
    OuterColumns(now, level, pid, source, message);
    LevelSlot(now, level, pid, source, message);
    PidSlot(now, level, pid, source, message);
    SourceSlot(now, level, pid, source, message);
    PaddedColumn(r, |now| + 1, p - 1, LevelName(level), LEVEL_WIDTH);
    PaddedColumn(r, p, q - 1, Decimal(pid), PID_WIDTH);
    PaddedColumn(r, q, m - 1, source, SOURCE_WIDTH);
  }

  /** The level column, right-stripped, names the line's priority. */
  lemma LevelColumn(now: string, level: Severity, pid: nat, source: string, message: string)
    ensures var r := FormatLine(now, level, pid, source, message);
      LevelNamed(StripRight(r[|now| + 1..PidStart(now) - 1])) == Some(level)
  {
    LevelSlot(now, level, pid, source, message);
    StripRightPadded(LevelName(level), LEVEL_WIDTH);
    LevelNamedName(level);
  }

  /** The pid column, right-stripped, reads back as the pid. */
  lemma PidColumn(now: string, level: Severity, pid: nat, source: string, message: string)
    ensures var r := FormatLine(now, level, pid, source, message);
      && StripRight(r[PidStart(now)..SourceStart(now, pid) - 1]) == Decimal(pid)
      && DecimalValue(Decimal(pid)) == pid
  {
    var pidText := Decimal(pid);
    PidSlot(now, level, pid, source, message);
    assert IsDigit(pidText[|pidText| - 1]);
    StripRightPadded(pidText, PID_WIDTH);
    DecimalRoundTrip(pid);
  }

  /** A line built from newline-free parts holds no newline, so a joined
      history splits back into its lines. */
  lemma FormatSingleLine(now: string, level: Severity, pid: nat, source: string, message: string)
    requires '\n' !in now && '\n' !in source && '\n' !in message
    ensures '\n' !in FormatLine(now, level, pid, source, message)
  {
    var name := LeftJustify(LevelName(level), LEVEL_WIDTH);
    var digits := LeftJustify(Decimal(pid), PID_WIDTH);
    var src := LeftJustify(source, SOURCE_WIDTH);
    assert '\n' !in name;
    assert '\n' !in digits;
    assert '\n' !in src;
  }

  /** A carriage return immediately followed by a line feed starts at `i`. */
  predicate CrlfAt(s: string, i: int)
  {
    0 <= i && i + 1 < |s| && s[i] == '\r' && s[i + 1] == '\n'
  }

  predicate NoCrlf(s: string)
  {
    forall i :: 0 <= i < |s| ==> !CrlfAt(s, i)
  }

  /** `value.replace('\r\n', '\\r\\n')`: each CRLF, scanned left to right,
      becomes the four characters backslash, r, backslash, n. */
  function EscapeCrlf(s: string): (r: string)
    ensures NoCrlf(r)
    ensures s != [] ==> r != [] && r[0] == (if CrlfAt(s, 0) then '\\' else s[0])
    ensures NoCrlf(s) ==> r == s
    decreases |s|
  {
    if s == [] then []
    else if CrlfAt(s, 0) then
      var t := EscapeCrlf(s[2..]);
      var r := "\\r\\n" + t;
      assert forall i :: 0 <= i < |r| && CrlfAt(r, i) ==> i >= 4 && CrlfAt(t, i - 4);
      r
    else
      var t := EscapeCrlf(s[1..]);
      var r := [s[0]] + t;
      assert forall i :: 0 <= i < |r| && CrlfAt(r, i) ==> i >= 1 && CrlfAt(t, i - 1);
      assert NoCrlf(s) ==> NoCrlf(s[1..]) by {
        if NoCrlf(s) {
          forall i | 0 <= i < |s[1..]| ensures !CrlfAt(s[1..], i) {
            assert !CrlfAt(s, i + 1);
          }
        }
      }
      r
  }

  lemma NoCrlfTail(a: string)
    requires a != [] && NoCrlf(a)
    ensures NoCrlf(a[1..])
  {
    forall i | 0 <= i < |a[1..]| ensures !CrlfAt(a[1..], i) {
      assert !CrlfAt(a, i + 1);
    }
  }

  lemma EscapeCrlfKeeps(s: string)
    requires s != [] && !CrlfAt(s, 0)
    ensures EscapeCrlf(s) == [s[0]] + EscapeCrlf(s[1..])
  {
  }

  lemma EscapeCrlfFirst(b: string)
    ensures EscapeCrlf("\r\n" + b) == "\\r\\n" + EscapeCrlf(b)
  {
    var s := "\r\n" + b;
    assert CrlfAt(s, 0) && s[2..] == b;
  }

  /** A CRLF-free head does not start a CRLF when one follows it. */
  lemma NoCrlfBefore(a: string, b: string)
    requires a != [] && NoCrlf(a)
    ensures !CrlfAt(a + "\r\n" + b, 0)
  {
    if |a| >= 2 {
      assert !CrlfAt(a, 0);
    }
  }

  /** Escaping a string that starts with a character outside any CRLF keeps
      that character and escapes the rest. */
  lemma EscapeCrlfStep(a: string, b: string)
    requires a != [] && !CrlfAt(a + "\r\n" + b, 0)
    requires EscapeCrlf(a[1..] + "\r\n" + b) == a[1..] + "\\r\\n" + EscapeCrlf(b)
    ensures EscapeCrlf(a + "\r\n" + b) == a + "\\r\\n" + EscapeCrlf(b)
  {
    var s := a + "\r\n" + b;
    var tail := a[1..] + "\r\n" + b;
    var e := EscapeCrlf(b);
    assert s[0] == a[0] && s[1..] == tail;
    EscapeCrlfKeeps(s);
    calc {
      EscapeCrlf(s);
      [a[0]] + EscapeCrlf(tail);
      [a[0]] + (a[1..] + "\\r\\n" + e);
      { assert [a[0]] + a[1..] == a; }
      a + "\\r\\n" + e;
    }
  }

  /** The first CRLF of a string is replaced by the escape, the text before
      it is kept, and the scan goes on after it. With `NoCrlf(s) ==> r == s`
      this determines `EscapeCrlf` on every string. */
  lemma {:induction false} EscapeCrlfAt(a: string, b: string)
    requires NoCrlf(a)
    ensures EscapeCrlf(a + "\r\n" + b) == a + "\\r\\n" + EscapeCrlf(b)
    decreases |a|
  {
    if a == [] {
      assert a + "\r\n" + b == "\r\n" + b;
      EscapeCrlfFirst(b);
    } else {
      NoCrlfTail(a);
      EscapeCrlfAt(a[1..], b);
      NoCrlfBefore(a, b);
      EscapeCrlfStep(a, b);
    }
  }

  /** `single_line`: the value in square brackets with every CRLF escaped. */
  function SingleLine(value: string): (r: string)
    ensures |r| >= 2 && r[0] == '[' && r[|r| - 1] == ']'
    ensures r[1..|r| - 1] == EscapeCrlf(value)
    ensures NoCrlf(r)
    ensures NoCrlf(value) ==> r == "[" + value + "]"
  {
    var e := EscapeCrlf(value);
    var r := "[" + e + "]";
    assert forall i :: 0 <= i < |r| && CrlfAt(r, i) ==> 1 <= i && CrlfAt(e, i - 1);
    r
  }

  /** A message whose text is produced on demand: the prefix, then the
      message passed through `format` when one is given. */
  datatype LazyFormat = LazyFormat(prefix: string, format: Option<string -> string>, message: string)
  {
    /** `__str__`. */
    function Str(): (r: string)
      ensures |prefix| <= |r| && r[..|prefix|] == prefix
      ensures format.None? ==> r[|prefix|..] == message
      ensures format.Some? ==> r[|prefix|..] == format.value(message)
    {
      match format
      case Some(f) => prefix + f(message)
      case None => prefix + message
    }

    /** The first piece `log` gets from `split` starts with the whole prefix
        when the prefix holds no separator, whether or not a format is given. */
    lemma FirstPieceKeepsPrefix(c: char)
      requires c !in prefix
      ensures |prefix| <= |SplitOn(c)[0]| && SplitOn(c)[0][..|prefix|] == prefix
    {
      var body := if format.Some? then format.value(message) else message;
      assert Str() == prefix + body;
      SplitFirstPiece(prefix, body, c);
    }

    /** `split(c)`: the pieces of the rendered text, which join back to it. */
    function SplitOn(c: char): (r: seq<string>)
      ensures |r| >= 1
      ensures forall i :: 0 <= i < |r| ==> c !in r[i]
      ensures Join(r, c) == Str()
    {
      JoinSplit(Str(), c);
      Split(Str(), c)
    }
  }
}
