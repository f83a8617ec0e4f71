# A verified model of ExaProxy's `SysLog` logging engine

ExaProxy's `lib/exaproxy/util/log.py` holds `SysLog`. It is a leveled logger with eight
syslog priorities, from EMERGENCY (0) to DEBUG (7). It keeps a rolling history of the last
twenty records and has a `toggle` that temporarily raises the threshold to DEBUG. It can
send its lines to a printer, a console stream, a local or remote syslog, or a rotating file.
This project models that engine in Dafny and proves what it promises.

The model has these layers:

- `text.dfy` (module `Text`) holds the Python 2 string operations the engine relies on:
  `split` on one character, `join`, `split(' ', 1)[0]`, `%-Ns`, `%d`, `strip()` and `lower()`.
- `layout.dfy` (module `Layout`) holds the priority-name table, the columnar line of
  `_format`, `single_line` and `LazyFormat`.
- `destinations.dfy` (module `Destinations`) holds the way `syslog` reads its destination
  string.
- `backlog.dfy` (module `Backlog`) holds the shared history: `_record`, the FIFO law, and
  the rendering done by `history`.
- `log_rule.dfy` (module `LogRule`) and `toggle_rule.dfy` (module `ToggleRule`) state
  `log` and `toggle` as pure functions of the state they read.
- `engine.dfy` (module `Engine`) holds the engine itself, as two classes:
  - `ClassState` holds what Python keeps on the class and every instance shares:
    `_history`, `_pid`, and the class-level `_toggle_status` dict.
  - `SysLog` holds the instance fields. Its methods update those fields in place and are
    proved against the functions above.

Timestamps are opaque strings, the already rendered output of `strftime`. Every time the
engine reads the clock comes from a `clock: nat -> string` parameter: `clock(0)` stamps the
whole-message record, and `clock(i + 1)` stamps line `i`. The pid is a number fixed when the
class state is built. Two facts about the host become parameters of `Classify`: whether it
runs on Darwin, and whether the local syslog socket exists. Lines handed to a sink are
appended to the `written` field. Each locked block is one atomic method call. A Dafny `char`
stands for one byte of a Python 2 `str`. So the `%-Ns` padding counts bytes, and `lower()`
and `strip()` are the C-locale byte operations.

The model follows the code as written. In particular:

- `log` never writes `status`. Only `toggle` changes it, so a tag is never marked just
  because it was recorded.
- The threshold test `level <= self.level` is the same for every line of a message. All
  lines are yielded, or none.
- The tag is split on the single character ' '. A tab does not end it, and a leading space
  gives the empty tag.
- Both the printer and the logging handlers receive the fully formatted line, because that
  is what `log` yields.
- `_history` is a class attribute, so every `SysLog` instance shares one buffer.
- Two toggles restore the state only when the saved level is truthy. From threshold 0
  (LOG_EMERG), the second toggle enters the override again, and 0 is never restored
  (`ZeroNeverRestored`).
- Until an instance first leaves the override, it saves its status into the class-level
  `_toggle_status` dict. That dict is shared with other instances, and stale pairs in it
  come back on restore (`ToggleTwiceMerges`).
- Emitting through an unset sink raises AttributeError. So does `notice`, `alert` or
  `emmergency` on a logging sink, since `logging.Logger` has no such methods. In each case
  the error comes at the first line, after that line was recorded (`Emit`).
- 'stdout' and 'stderr' both build `logging.StreamHandler()` with no argument, so both
  select the same `Stream` destination.

## Model

| member | source | states |
|---|---|---|
| `Layout.LevelName` | lib/exaproxy/util/log.py:18-27 | each of the eight priorities has a fixed upper-case name of at most nine characters |
| `Layout.LevelNamed` | lib/exaproxy/util/log.py:18-27 | a name maps back to the priority that has it, and to nothing when no priority has it |
| `Layout.LevelNamedName` | lib/exaproxy/util/log.py:18-27 | the table's names are distinct, so each name gives back its own priority |
| `Layout.FormatLine` | lib/exaproxy/util/log.py:104-106 | defines `_format`: timestamp, level name padded to 9, pid padded to 6, source padded to 13 and message, separated by single spaces; its layout is stated by `FormatColumns`, `LevelColumn` and `PidColumn` |
| `Layout.EscapeCrlf` | lib/exaproxy/util/log.py:33 | the replacement leaves no CRLF, a CRLF at the start becomes a backslash, and text with no CRLF is unchanged |
| `Layout.EscapeCrlfAt` | lib/exaproxy/util/log.py:33 | the first CRLF becomes the four characters `\r\n`, the text before it is kept unchanged, and the rest is escaped the same way; with the no-CRLF clause of `EscapeCrlf` this fixes the result on every string |
| `Layout.SingleLine` | lib/exaproxy/util/log.py:32-33 | `single_line` is the escaped value between `[` and `]`, so it contains no CRLF; a value with no CRLF is only bracketed |
| `Layout.LazyFormat.SplitOn` | lib/exaproxy/util/log.py:50-56 | `split` gives the pieces of `__str__` (the prefix, then the message passed through `format` only when one is given); the pieces have no separator and join back to that text |
| `Layout.LazyFormat.FirstPieceKeepsPrefix` | lib/exaproxy/util/log.py:50-56 | when the prefix holds no separator, the first piece `log` splits off starts with the whole prefix, with or without a format |
| `Layout.FormatColumns` | lib/exaproxy/util/log.py:104-106 | a line is the timestamp, then single spaces between the level name padded with spaces to nine, the pid digits padded with spaces to six, the untruncated source padded with spaces to thirteen, and the message tail; its length follows from the widths |
| `Layout.LevelColumn` | lib/exaproxy/util/log.py:104-106 | the level column, right-stripped, names the line's priority |
| `Layout.PidColumn` | lib/exaproxy/util/log.py:104-106 | the pid column, right-stripped, is the pid's decimal text, and it reads back as the pid |
| `Layout.FormatSingleLine` | lib/exaproxy/util/log.py:104-106 | a line built from newline-free timestamp, source and message holds no newline |
| `Text.LeftJustify` | lib/exaproxy/util/log.py:106 | `%-Ns` keeps the whole text and pads it with spaces to at least N characters |
| `Text.Decimal` | lib/exaproxy/util/log.py:106 | `%d` of a non-negative number is a non-empty string of digits with no leading zero |
| `Text.DecimalRoundTrip` | lib/exaproxy/util/log.py:106 | the digits `%d` prints read back as the number |
| `Text.Split` | lib/exaproxy/util/log.py:162 | `split('\n')` gives one more piece than there are separators, and no piece holds a separator |
| `Text.Join` | lib/exaproxy/util/log.py:96 | defines `c.join(pieces)`; `JoinSplit` and `SplitJoin` state that it inverts `Split` |
| `Text.JoinSplit` | lib/exaproxy/util/log.py:162 | joining the pieces of a split with the separator gives back the string |
| `Text.SplitJoin` | lib/exaproxy/util/log.py:96 | splitting the join of a non-empty list of separator-free pieces gives back the pieces (an empty list joins to `""`, which splits into one empty piece) |
| `Text.Tag` | lib/exaproxy/util/log.py:158 | the tag is the longest prefix of the source without a space; it is the whole source or is followed by a space |
| `Text.TagIsFirstPiece` | lib/exaproxy/util/log.py:158 | the tag equals the first piece of a full split on ' ', so the split limit does not change it |
| `Text.StripLeft` | lib/exaproxy/util/log.py:142 | leading whitespace, and only that, is removed |
| `Text.StripRight` | lib/exaproxy/util/log.py:142 | trailing whitespace, and only that, is removed |
| `Text.Strip` | lib/exaproxy/util/log.py:142 | the result is the input with exactly its leading and trailing whitespace removed: only whitespace surrounds it, and it neither starts nor ends with whitespace |
| `Text.StripFixed` | lib/exaproxy/util/log.py:142 | a string with no surrounding whitespace is its own strip |
| `Text.Lower` | lib/exaproxy/util/log.py:139 | defines Python 2 `lower()`, which changes ASCII capitals only; the length is kept |
| `Destinations.Classify` | lib/exaproxy/util/log.py:124-145 | 'print' gives Printer, 'stdout'/'stderr' give Stream, '' gives local syslog, a case-insensitive 'host:' prefix gives the stripped host on port 514, and any other string gives a rotating file of 5 MiB with 5 backups; each if and only if |
| `Destinations.ClassifyCanonical` | lib/exaproxy/util/log.py:124-145 | every destination string selects a destination of the canonical shape |
| `Destinations.ClassifyRender` | lib/exaproxy/util/log.py:124-145 | every canonical destination is selected by its rendered string (round trip) |
| `Backlog.Recorded` | lib/exaproxy/util/log.py:98-102 | below capacity the entry is appended; at capacity the oldest entry is dropped and the new one is last |
| `Backlog.RecordedIsLast` | lib/exaproxy/util/log.py:98-102 | one record on a history within capacity keeps the last twenty entries |
| `Backlog.RecordAllKeepsLast` | lib/exaproxy/util/log.py:98-102 | from any history within capacity, after any records the history is the last min(20, n) entries in insertion order, never more than 20 |
| `Backlog.HistoryText` | lib/exaproxy/util/log.py:94-96 | defines `history`: every entry formatted with `_format`, joined with line feeds, oldest first; `HistoryLines` states how it splits back |
| `Backlog.HistoryLines` | lib/exaproxy/util/log.py:94-96 | when the history is non-empty and no entry carries a newline, the rendered history splits back into one formatted line per entry, oldest first (an empty history renders as `""`, one empty piece) |
| `LogRule.RecordsWholeOnce` | lib/exaproxy/util/log.py:158-160 | the unsplit message is recorded once, first, exactly when the tag is not marked truthy in `status` |
| `LogRule.LogRecords` | lib/exaproxy/util/log.py:152-164 | defines what one `log` call records: the whole message unless its tag is marked, then one record per line when the level passes; stated by `RecordsWholeOnce` and `LineRecordsLast` |
| `LogRule.LogLines` | lib/exaproxy/util/log.py:162-164 | defines what one `log` call yields: each line record formatted; stated by `OneLinePerPiece`, `LinesRejoin` and `LinesFormatted` |
| `LogRule.OneLinePerPiece` | lib/exaproxy/util/log.py:162-164 | lines are yielded only when the level passes the threshold, and then one per piece of the split |
| `LogRule.LineRecordsLast` | lib/exaproxy/util/log.py:158-164 | the per-line records come after the whole-message record, at the end of what one call records |
| `LogRule.LinesRejoin` | lib/exaproxy/util/log.py:162-164 | when lines are yielded, the messages of the line records join back with line feeds to the message |
| `LogRule.LinesFormatted` | lib/exaproxy/util/log.py:162-164 | each yielded line is the `_format` of its piece with its own clock reading, and is the formatting of its own history record |
| `ToggleRule.Toggle` | lib/exaproxy/util/log.py:79-92 | defines `toggle` on the threshold, `status`, `_toggle_level` and `_toggle_status`: restore when the saved level is truthy, otherwise save and enter DEBUG with every status value True; its properties are the lemmas below |
| `ToggleRule.ToggleEnters` | lib/exaproxy/util/log.py:87-92 | from the normal state the threshold becomes DEBUG, the old threshold and status are saved, every status key becomes True, and no key is added or removed |
| `ToggleRule.ToggleSilencesKnownTags` | lib/exaproxy/util/log.py:87-92 | after entering, every tag already in `status` has its whole messages left unrecorded |
| `ToggleRule.ToggleTwiceRestores` | lib/exaproxy/util/log.py:79-92 | two toggles from the normal state at a nonzero threshold restore threshold and status exactly, with `_toggle_level` None and `_toggle_status` empty |
| `ToggleRule.ToggleTwiceMerges` | lib/exaproxy/util/log.py:79-92 | with pairs already saved, a round trip restores the threshold, but the status becomes the saved pairs overridden by the current ones |
| `ToggleRule.ToggleTwiceFromZero` | lib/exaproxy/util/log.py:79-92 | from threshold 0 the second toggle enters again: threshold DEBUG, saved level DEBUG, every status value True |
| `ToggleRule.ZeroNeverRestored` | lib/exaproxy/util/log.py:79-92 | once entered from threshold 0, any number of further toggles leaves the threshold at DEBUG |
| `Engine.ClassState.constructor` | lib/exaproxy/util/log.py:64-73 | the class state starts with an empty history and an empty class-level `_toggle_status` |
| `Engine.SysLog.constructor` | lib/exaproxy/util/log.py:113-116 | a new instance has threshold WARNING, empty status and no sink, and has not toggled yet |
| `Engine.SysLog.SetLevel` | lib/exaproxy/util/log.py:118-119 | the threshold becomes the given value, whatever it is |
| `Engine.SysLog.SetDebug` | lib/exaproxy/util/log.py:121-122 | the threshold becomes DEBUG |
| `Engine.SysLog.Syslog` | lib/exaproxy/util/log.py:124-148 | the sink becomes the printer for 'print', and otherwise a logger carrying the classified handler |
| `Engine.SysLog.Toggle` | lib/exaproxy/util/log.py:79-92 | the new threshold, status, saved level and saved status are `ToggleRule.Toggle` of the old ones; entering writes into the class-level dict while the instance has none of its own, and keeps the instance with or without its own dict as before; leaving gives the instance an empty dict |
| `Engine.SysLog.Restore` | lib/exaproxy/util/log.py:80-86 | the restoring branch copies the saved status back pair by pair and clears the saved level and status |
| `Engine.SysLog.Enter` | lib/exaproxy/util/log.py:87-92 | the entering branch copies each status pair into the dict `_toggle_status` finds and marks it True |
| `Engine.SysLog.History` | lib/exaproxy/util/log.py:94-96 | the shared history, formatted and newline-joined; a non-empty history of single-line entries splits back into one line per entry |
| `Engine.SysLog.Record` | lib/exaproxy/util/log.py:98-102 | the shared history becomes `Recorded` of the old one and stays within twenty entries; at capacity the oldest is dropped |
| `Engine.SysLog.Prefixed` | lib/exaproxy/util/log.py:108-111 | one entry is recorded, and the same entry is returned formatted |
| `Engine.SysLog.RecordUnlessSeen` | lib/exaproxy/util/log.py:158-160 | the whole message is recorded unless the tag of the source is marked truthy in `status` |
| `Engine.SysLog.Log` | lib/exaproxy/util/log.py:152-164 | the yielded lines are `LogRule.LogLines`, and the history is the old one after recording `LogRule.LogRecords`, in order |
| `Engine.Handles` | lib/exaproxy/util/log.py:36-42 | defines which emitting methods a sink has: the printer answers every name, a `logging` logger only `debug`, `info`, `warning`, `error` and `critical`, and an unset sink none; `Emit` states what follows |
| `Engine.SysLog.Emit` | lib/exaproxy/util/log.py:166-196 | when the sink has the method named after the priority, every yielded line is written in order and the history is as for `log`; otherwise, when a line is due, AttributeError comes after the whole-message record and the first line's record, and nothing is written |

## Left out

- Writing to the sinks is left out: stdout, the `logging` handlers, syslog sockets and
  rotating files. It is I/O, so the model keeps only the sequence of lines handed to the sink.
- `time.localtime`, `time.strftime` and `os.getpid` are left out. They are OS services, so
  they become parameters.
- The `Lock` is left out. Each locked block is modelled as one atomic call; interleavings
  between threads are not modelled.
- The `pdb` trap at the top of `log` is left out. It is an interactive development aid, and
  it refers to the module-level `log` object.
- The `Log()` and `Usage()` accessors and the module-level `log` and `usage` objects are left
  out. They are process-wide wiring; the model builds instances explicitly.
- The `IOError` handler of `syslog` is left out. It depends on a handler constructor
  failing, and that constructor is not part of this model.
- `hex_string` is left out. Its output is the `repr` of a list of `hex` strings, which
  belongs to Python's own formatting.
- `Engine.SysLog.Syslog`: each call adds a handler to the process-wide root logger, so
  repeated calls accumulate handlers; the model keeps only the latest destination.
- `Engine.SysLog.Log` and `Engine.SysLog.Emit`: the message priority is one of 0..7, the
  values the eight emitting methods pass. A direct `log` call with another value would
  raise KeyError in `_format`; that is not modelled.
- `Engine.SysLog.Log` and `Engine.SysLog.Emit`: the message is a string. `log` also accepts a
  `LazyFormat`, whose `split` it calls; `_record` then stores the object, and `history`
  renders it again through `%s` each time. The model takes such a message as its `Str()`,
  rendered once, which is the same result when `format` is a pure function.
- `Engine.SysLog.Log`: the generator is modelled as run to the end. A consumer that stops
  early leaves the later lines unrecorded. No caller in the file stops early, except through
  the AttributeError that `Engine.SysLog.Emit` models.
- `status` values are booleans in the model. Python would accept any value and test its
  truthiness; only `toggle` writes `status`, and it writes booleans.
- The class attributes `_inserted` and `_config` are left out: nothing reads them. `_log` and
  `_usage` are left out too: they are read only by the left-out `Log()` and `Usage()`
  accessors, are never assigned, and so are always None.
