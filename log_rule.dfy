/** What one `SysLog.log` call does when its generator is run to the end:
    the history entries it records and the formatted lines it yields.
    `clock(0)` is the time read for the whole-message record and
    `clock(i + 1)` the time read for line `i`. */
module LogRule {
  import opened Text
  import opened Layout
  import opened Backlog

  /** `status.get(tag, False)` is truthy. */
  predicate Seen(status: map<string, bool>, tag: string)
  {
    tag in status && status[tag]
  }

  /** The record of the whole, unsplit message, made unless the source's
      tag is marked in `status`. */
  function WholeRecord(status: map<string, bool>, source: string, message: string,
                       level: Severity, clock: nat -> string): seq<Entry>
  {
    if Seen(status, Tag(source)) then [] else [Entry(clock(0), level, source, message)]
  }

  /** One record per newline-separated line, made by `_prefixed`, when the
      level passes the threshold. */
  function LineRecords(threshold: int, source: string, message: string,
                       level: Severity, clock: nat -> string): seq<Entry>
  {
    if level <= threshold then
      var pieces := Split(message, '\n');
      seq(|pieces|, i requires 0 <= i < |pieces| => Entry(clock(i + 1), level, source, pieces[i]))
    else []
  }

  lemma LineRecordsAt(threshold: int, source: string, message: string,
                      level: Severity, clock: nat -> string, i: nat)
    requires level <= threshold && i < |Split(message, '\n')|
    ensures var es := LineRecords(threshold, source, message, level, clock);
      |es| == |Split(message, '\n')| && es[i] == Entry(clock(i + 1), level, source, Split(message, '\n')[i])
  {
  }

  /** Everything one call records, in order. */
  function LogRecords(status: map<string, bool>, threshold: int, source: string, message: string,
                      level: Severity, clock: nat -> string): seq<Entry>
  {
    WholeRecord(status, source, message, level, clock) + LineRecords(threshold, source, message, level, clock)
  }

  /** Everything one call yields: each line record, formatted. */
  function LogLines(threshold: int, pid: nat, source: string, message: string,
                    level: Severity, clock: nat -> string): seq<string>
  {
    FormatAll(LineRecords(threshold, source, message, level, clock), pid)
  }

  /** The whole message is recorded once, first and unsplit, exactly when
      the tag is not marked; every other record is one yielded line. */
  lemma RecordsWholeOnce(status: map<string, bool>, threshold: int, pid: nat, source: string,
                         message: string, level: Severity, clock: nat -> string)
    ensures var es := LogRecords(status, threshold, source, message, level, clock);
      var lines := LogLines(threshold, pid, source, message, level, clock);
      && |es| == (if Seen(status, Tag(source)) then 0 else 1) + |lines|
      && (!Seen(status, Tag(source)) ==> es[0] == Entry(clock(0), level, source, message))
  {
  }

  /** Lines are yielded only when the level passes the threshold, and then
      one per piece of `message.split('\n')`. */
  lemma OneLinePerPiece(threshold: int, pid: nat, source: string, message: string,
                        level: Severity, clock: nat -> string)
    ensures |LogLines(threshold, pid, source, message, level, clock)|
         == if level <= threshold then Count(message, '\n') + 1 else 0
  {
  }

  /** The line records follow the whole-message record, if any, in `LogRecords`. */
  lemma LineRecordsLast(status: map<string, bool>, threshold: int, source: string, message: string,
                        level: Severity, clock: nat -> string)
    ensures var es := LogRecords(status, threshold, source, message, level, clock);
      var ls := LineRecords(threshold, source, message, level, clock);
      |ls| <= |es| && es[|es| - |ls|..] == ls
  {
    var es := LogRecords(status, threshold, source, message, level, clock);
    var ls := LineRecords(threshold, source, message, level, clock);
    var whole := WholeRecord(status, source, message, level, clock);
    assert es == whole + ls;
    assert es[|whole|..] == ls;
  }

  /** When lines are yielded, the messages of the line records join back,
      with line feeds, to the message. */
  lemma {:induction false} LinesRejoin(threshold: int, source: string, message: string,
                                       level: Severity, clock: nat -> string)
    requires level <= threshold
    ensures var ls := LineRecords(threshold, source, message, level, clock);
      Join(seq(|ls|, j requires 0 <= j < |ls| => ls[j].message), '\n') == message
  {
    var ls := LineRecords(threshold, source, message, level, clock);
    var pieces := Split(message, '\n');
    assert seq(|ls|, j requires 0 <= j < |ls| => ls[j].message) == pieces;
    JoinSplit(message, '\n');
  }

  /** Each yielded line is the `_format` of its own piece, stamped with the
      clock reading taken for it, and is also the formatting of its own line
      record. */
  lemma {:induction false} LinesFormatted(threshold: int, pid: nat, source: string, message: string,
                                          level: Severity, clock: nat -> string)
    ensures var lines := LogLines(threshold, pid, source, message, level, clock);
      var ls := LineRecords(threshold, source, message, level, clock);
      var pieces := Split(message, '\n');
      |lines| == |ls| &&
      forall j :: 0 <= j < |lines| ==>
        && lines[j] == FormatLine(clock(j + 1), level, pid, source, pieces[j])
        && lines[j] == FormatEntry(ls[j], pid)
  {
    var lines := LogLines(threshold, pid, source, message, level, clock);
    var ls := LineRecords(threshold, source, message, level, clock);
    forall j | 0 <= j < |lines|
      ensures lines[j] == FormatEntry(ls[j], pid)
      ensures lines[j] == FormatLine(clock(j + 1), level, pid, source, Split(message, '\n')[j])
    {
      LineRecordsAt(threshold, source, message, level, clock, j);
    }
  }
}
