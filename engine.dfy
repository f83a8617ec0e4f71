/** The `SysLog` logging engine: an object whose methods update its
    threshold, status and toggle attributes in place, over state that the
    class itself keeps and every instance shares. */
module Engine {
  import opened Options
  import opened Text
  import opened Layout
  import opened Destinations
  import opened Backlog
  import opened LogRule
  import opened ToggleRule

  /** The attributes SysLog keeps on the class rather than on an instance,
      and so shares between all instances: `_history`, mutated in place;
      `_pid`, read once when the class is defined; and the `_toggle_status`
      dict an instance writes into until it has a dict of its own. */
  class ClassState {
    var history: seq<Entry>
    var toggleStatus: map<string, bool>
    const pid: nat

    ghost predicate Valid()
      reads this
    {
      |history| <= MAX_HISTORY
    }

    constructor (pid: nat)
      ensures Valid()
      ensures history == [] && toggleStatus == map[] && this.pid == pid
    {
      history := [];
      toggleStatus := map[];
      this.pid := pid;
    }
  }

  /** Recording and formatting one more line record extends what the
      earlier ones gave. */
  lemma LineStep(h: seq<Entry>, es: seq<Entry>, i: nat, pid: nat)
    requires i < |es|
    ensures RecordAll(h, es[..i + 1]) == Recorded(RecordAll(h, es[..i]), es[i])
    ensures FormatAll(es[..i + 1], pid) == FormatAll(es[..i], pid) + [FormatEntry(es[i], pid)]
  {
    RecordAllSnoc(h, es[..i], es[i]);
    assert es[..i] + [es[i]] == es[..i + 1];
    FormatAllSnoc(es, i, pid);
  }

  /** `_syslog`: None until `syslog` is called, then a `Printer` or the root
      logger carrying the chosen handler. */
  datatype Sink = Unset | PrinterSink | LoggerSink(handler: Destination)

  /** Whether the sink has the method the emitting method for `severity`
      calls. A `Printer` answers every attribute; a logger has `debug`,
      `info`, `warning`, `error` and `critical` but no `notice`, `alert` or
      `emmergency`; None has nothing. */
  predicate Handles(sink: Sink, severity: Severity)
  {
    match sink
    case Unset => false
    case PrinterSink => true
    case LoggerSink(_) =>
      severity == DEBUG || severity == INFO || severity == WARNING || severity == ERROR || severity == CRITICAL
  }

  /** The sink `syslog` installs for a destination. */
  function SinkFor(d: Destination): Sink
  {
    if d.Printer? then PrinterSink else LoggerSink(d)
  }

  /** `status` part way through the entering loop of `toggle`: keys not yet
      visited keep their values, visited ones are True. */
  function Marked(original: map<string, bool>, pending: set<string>): map<string, bool>
  {
    map k | k in original :: if k in pending then original[k] else true
  }

  /** The pairs of `original` the entering loop has already copied. */
  function Copied(original: map<string, bool>, pending: set<string>): map<string, bool>
  {
    map k | k in original.Keys - pending :: original[k]
  }

  lemma MarkStep(original: map<string, bool>, pending: set<string>, k: string)
    requires k in pending && pending <= original.Keys
    ensures Marked(original, pending)[k := true] == Marked(original, pending - {k})
  {
  }

  lemma CopyStep(base: map<string, bool>, original: map<string, bool>, pending: set<string>, k: string)
    requires k in pending && pending <= original.Keys
    ensures (base + Copied(original, pending))[k := original[k]] == base + Copied(original, pending - {k})
  {
  }

  /** Before the entering loop nothing is visited; after it, everything. */
  lemma LoopBounds(base: map<string, bool>, original: map<string, bool>)
    ensures Marked(original, original.Keys) == original
    ensures Marked(original, {}) == AllTrue(original)
    ensures base + Copied(original, original.Keys) == base
    ensures Copied(original, {}) == original
  {
  }

  class SysLog {
    /** `level`: lines at this priority or more severe are emitted. */
    var level: int
    /** `status`: source tags mapped to True do not have their whole
        messages recorded. */
    var status: map<string, bool>
    /** `_toggle_level`: None until this instance first toggles. */
    var toggleLevel: Option<int>
    /** This instance's own `_toggle_status`, once it has assigned one. */
    var ownToggleStatus: Option<map<string, bool>>
    /** `_syslog`. */
    var sink: Sink
    /** Every line handed to the sink, in order. */
    var written: seq<string>
    /** The class attributes. */
    const cls: ClassState

    ghost predicate Valid()
      reads this, cls
    {
      cls.Valid()
    }

    /** What `self._toggle_status` finds: the instance's dict if it has one,
        otherwise the class's. */
    function ToggleStatus(): map<string, bool>
      reads this, cls
    {
      if ownToggleStatus.Some? then ownToggleStatus.value else cls.toggleStatus
    }

    /** The attributes `toggle` works on. */
    function State(): LevelState
      reads this, cls
    {
      LevelState(level, status, toggleLevel, ToggleStatus())
    }

    /** `__init__`: threshold WARNING, empty status, no sink. */
    constructor (cls: ClassState)
      requires cls.Valid()
      ensures Valid() && this.cls == cls
      ensures level == WARNING && status == map[]
      ensures toggleLevel == None && ownToggleStatus == None
      ensures sink == Unset && written == []
    {
      level := WARNING;
      status := map[];
      toggleLevel := None;
      ownToggleStatus := None;
      sink := Unset;
      written := [];
      this.cls := cls;
    }

    /** `setLevel`. */
    method SetLevel(threshold: int)
      modifies this`level
      ensures level == threshold
    {
      level := threshold;
    }

    /** `setDebug`. */
    method SetDebug()
      modifies this`level
      ensures level == DEBUG
    {
      level := DEBUG;
    }

    /** `syslog`: install the sink the destination string selects. */
    method Syslog(destination: string, onDarwin: bool, socketExists: bool)
      modifies this`sink
      ensures sink == SinkFor(Classify(destination, onDarwin, socketExists))
    {
      var d := Classify(destination, onDarwin, socketExists);
      if d.Printer? {
        sink := PrinterSink;
      } else {
        sink := LoggerSink(d);
      }
    }

    /** `toggle`. Entering copies every status pair into whichever
        `_toggle_status` dict the lookup finds, the class's one included;
        leaving gives the instance a fresh empty dict of its own. */
    method Toggle()
      requires Valid()
      modifies this, cls`toggleStatus
      ensures Valid()
      ensures State() == ToggleRule.Toggle(old(State()))
      ensures sink == old(sink) && written == old(written)
      ensures old(Truthy(toggleLevel)) ==>
        ownToggleStatus == Some(map[]) && cls.toggleStatus == old(cls.toggleStatus)
      ensures !old(Truthy(toggleLevel)) && old(ownToggleStatus).None? ==>
        ownToggleStatus.None? && cls.toggleStatus == old(cls.toggleStatus) + old(status)
      ensures old(ownToggleStatus).Some? ==> cls.toggleStatus == old(cls.toggleStatus)
      ensures !old(Truthy(toggleLevel)) ==> ownToggleStatus.Some? == old(ownToggleStatus).Some?
    {
      if Truthy(toggleLevel) {
        Restore();
      } else {
        Enter();
      }
    }

    /** The branch of `toggle` taken when `_toggle_level` is truthy. */
    method Restore()
      requires Truthy(toggleLevel)
      modifies this`level, this`status, this`toggleLevel, this`ownToggleStatus
      ensures State() == ToggleRule.Toggle(old(State()))
      ensures ownToggleStatus == Some(map[])
    {
      var saved := ToggleStatus();
      level := toggleLevel.value;
      status := map[];
      var pending := saved.Keys;
      while pending != {}
        invariant pending <= saved.Keys
        invariant status == map k | k in saved.Keys - pending :: saved[k]
        modifies this`status
        decreases pending
      {
        var k :| k in pending;
        status := status[k := saved[k]];
        pending := pending - {k};
      }
      assert status == saved;
      toggleLevel := None;
      ownToggleStatus := Some(map[]);
    }

    /** The branch of `toggle` taken when `_toggle_level` is falsy. */
    method Enter()
      requires !Truthy(toggleLevel)
      modifies this`level, this`status, this`toggleLevel, this`ownToggleStatus, cls`toggleStatus
      ensures State() == ToggleRule.Toggle(old(State()))
      ensures ownToggleStatus.Some? == old(ownToggleStatus).Some?
      ensures ownToggleStatus.None? ==> cls.toggleStatus == old(cls.toggleStatus) + old(status)
      ensures ownToggleStatus.Some? ==> cls.toggleStatus == old(cls.toggleStatus)
    {
      toggleLevel := Some(level);
      level := DEBUG;
      var original := status;
      var target := ToggleStatus();
      var pending := original.Keys;
      LoopBounds(target, original);
      while pending != {}
        invariant pending <= original.Keys
        invariant status == Marked(original, pending)
        invariant target == old(ToggleStatus()) + Copied(original, pending)
        modifies this`status
        decreases pending
      {
        var k :| k in pending;
        MarkStep(original, pending, k);
        CopyStep(old(ToggleStatus()), original, pending, k);
        target := target[k := original[k]];
        status := status[k := true];
        pending := pending - {k};
      }
      // The writes went to the dict `self._toggle_status` names.
      if ownToggleStatus.Some? {
        ownToggleStatus := Some(target);
      } else {
        cls.toggleStatus := target;
      }
    }

    /** `history`: every recorded entry formatted, oldest first, joined by
        newlines; with no newline inside any entry it splits back into one
        line per entry. */
    function History(): (r: string)
      reads this, cls
      ensures r == HistoryText(cls.history, cls.pid)
      ensures |cls.history| > 0 && (forall i :: 0 <= i < |cls.history| ==> SingleLineEntry(cls.history[i])) ==>
        Split(r, '\n') == FormatAll(cls.history, cls.pid)
    {
      if |cls.history| > 0 && (forall i :: 0 <= i < |cls.history| ==> SingleLineEntry(cls.history[i])) then
        HistoryLines(cls.history, cls.pid);
        HistoryText(cls.history, cls.pid)
      else
        HistoryText(cls.history, cls.pid)
    }

    /** `_record`: append to the shared history, dropping the oldest entry
        past twenty. */
    method Record(e: Entry)
      requires Valid()
      modifies cls`history
      ensures Valid()
      ensures cls.history == Recorded(old(cls.history), e)
      ensures |old(cls.history)| == MAX_HISTORY ==> cls.history == old(cls.history)[1..] + [e]
    {
      cls.history := cls.history + [e];
      if |cls.history| > MAX_HISTORY {
        cls.history := cls.history[1..];
      }
    }

    /** `_prefixed`: record one line stamped `now` and return it formatted. */
    method Prefixed(severity: Severity, source: string, message: string, now: string) returns (line: string)
      requires Valid()
      modifies cls`history
      ensures Valid()
      ensures cls.history == Recorded(old(cls.history), Entry(now, severity, source, message))
      ensures line == FormatEntry(Entry(now, severity, source, message), cls.pid)
    {
      Record(Entry(now, severity, source, message));
      line := FormatLine(now, severity, cls.pid, source, message);
    }

    /** The first step of `log`: record the whole message unless the tag
        of `source` is marked in `status`. */
    method RecordUnlessSeen(source: string, message: string, severity: Severity, clock: nat -> string)
      requires Valid()
      modifies cls`history
      ensures Valid()
      ensures cls.history == RecordAll(old(cls.history), WholeRecord(status, source, message, severity, clock))
    {
      if !Seen(status, Tag(source)) {
        Record(Entry(clock(0), severity, source, message));
      }
    }

    /** `log`, its generator run to the end: the lines it yields, and the
        history it leaves. `status` is only read. */
    method Log(source: string, message: string, severity: Severity, clock: nat -> string)
      returns (lines: seq<string>)
      requires Valid()
      modifies cls`history
      ensures Valid()
      ensures lines == LogLines(level, cls.pid, source, message, severity, clock)
      ensures cls.history == RecordAll(old(cls.history), LogRecords(status, level, source, message, severity, clock))
    {
      ghost var es := LineRecords(level, source, message, severity, clock);
      RecordUnlessSeen(source, message, severity, clock);
      ghost var h1 := cls.history;
      var emitted := severity <= level;
      var pieces := Split(message, '\n');
      lines := [];
      var i := 0;
      while i < |pieces|
        invariant 0 <= i <= |pieces|
        invariant Valid()
        invariant emitted ==> lines == FormatAll(es[..i], cls.pid) && cls.history == RecordAll(h1, es[..i])
        invariant !emitted ==> lines == [] && cls.history == h1
      {
        if emitted {
          LineRecordsAt(level, source, message, severity, clock, i);
          var line := Prefixed(severity, source, pieces[i], clock(i + 1));
          LineStep(h1, es, i, cls.pid);
          lines := lines + [line];
        }
        i := i + 1;
      }
      if emitted {
        assert |es| == |pieces| && es[..i] == es;
      }
      RecordAllAppend(old(cls.history), WholeRecord(status, source, message, severity, clock), es);
    }

    /** The emitting methods `debug`, `info`, `notice`, `warning`, `error`,
        `critical`, `alert` and `emmergency`, each `severity` fixed to its
        own priority: every line `log` yields goes to the sink method of the
        same name. If the sink lacks that method, AttributeError is raised
        at the first line, after `_prefixed` recorded it; `raised` reports
        that. */
    method Emit(source: string, message: string, severity: Severity, clock: nat -> string)
      returns (raised: bool)
      requires Valid()
      modifies cls`history, this`written
      ensures Valid()
      ensures raised <==> severity <= level && !Handles(sink, severity)
      ensures !raised ==> written == old(written) + LogLines(level, cls.pid, source, message, severity, clock)
      ensures !raised ==> cls.history == RecordAll(old(cls.history), LogRecords(status, level, source, message, severity, clock))
      ensures raised ==> written == old(written)
      ensures raised ==> cls.history == RecordAll(old(cls.history),
        WholeRecord(status, source, message, severity, clock) + LineRecords(level, source, message, severity, clock)[..1])
    {
      ghost var es := LineRecords(level, source, message, severity, clock);
      RecordUnlessSeen(source, message, severity, clock);
      ghost var h1 := cls.history;
      ghost var w0 := written;
      var emitted := severity <= level;
      var handles := Handles(sink, severity);
      var pieces := Split(message, '\n');
      raised := false;
      var i := 0;
      while i < |pieces| && !raised
        invariant 0 <= i <= |pieces|
        invariant Valid()
        invariant !emitted ==> !raised && written == w0 && cls.history == h1
        invariant emitted && raised ==> i == 1 && !handles && written == w0 && cls.history == RecordAll(h1, es[..1])
        invariant emitted && !raised ==>
          && (i > 0 ==> handles)
          && written == w0 + FormatAll(es[..i], cls.pid)
          && cls.history == RecordAll(h1, es[..i])
      {
        if emitted {
          LineRecordsAt(level, source, message, severity, clock, i);
          var line := Prefixed(severity, source, pieces[i], clock(i + 1));
          LineStep(h1, es, i, cls.pid);
          if handles {
            written := written + [line];
          } else {
            raised := true;
          }
        }
        i := i + 1;
      }
      ghost var whole := WholeRecord(status, source, message, severity, clock);
      if emitted && !raised {
        assert |es| == |pieces| && es[..i] == es;
      }
      RecordAllAppend(old(cls.history), whole, if raised then es[..1] else es);
    }
  }
}
