/** The bounded history every SysLog instance shares: `_record` appends and
    evicts the oldest entry past `_max_history`, `history` renders it. */
module Backlog {
  import opened Text
  import opened Layout

  /** One recorded message: `(timestamp, level, source, message)`, with the
      timestamp already rendered by `strftime`. */
  datatype Entry = Entry(timestamp: string, level: Severity, source: string, message: string)

  /** `_max_history`. */
  const MAX_HISTORY: nat := 20

  /** `_record`: append `e`, then `pop(0)` once if the list is over capacity. */
  function Recorded(h: seq<Entry>, e: Entry): (r: seq<Entry>)
    ensures |h| < MAX_HISTORY ==> r == h + [e]
    ensures |h| >= MAX_HISTORY ==> r == h[1..] + [e]
  {
    var a := h + [e];
    if |a| > MAX_HISTORY then a[1..] else a
  }

  /** The history after recording each of `es` in turn. */
  function RecordAll(h: seq<Entry>, es: seq<Entry>): seq<Entry>
    decreases |es|
  {
    if es == [] then h else RecordAll(Recorded(h, es[0]), es[1..])
  }

  function Min(a: nat, b: nat): nat { if a < b then a else b }

  /** The last `n` elements of `s`, or all of them when there are fewer. */
  function Last<T>(s: seq<T>, n: nat): (r: seq<T>)
    ensures |r| == Min(n, |s|)
    ensures r == s[|s| - |r|..]
  {
    s[|s| - Min(n, |s|)..]
  }

  /** Recording one more entry is recording it after the others. */
  lemma {:induction false} RecordAllSnoc(h: seq<Entry>, es: seq<Entry>, e: Entry)
    ensures RecordAll(h, es + [e]) == Recorded(RecordAll(h, es), e)
    decreases |es|
  {
    if es == [] {
      assert RecordAll(Recorded(h, e), []) == Recorded(h, e);
      assert ([] + [e])[1..] == [];
    } else {
      assert (es + [e])[0] == es[0];
      assert (es + [e])[1..] == es[1..] + [e];
      RecordAllSnoc(Recorded(h, es[0]), es[1..], e);
    }
  }

  /** Recording `a` then `b` is recording `a + b`. */
  lemma {:induction false} RecordAllAppend(h: seq<Entry>, a: seq<Entry>, b: seq<Entry>)
    ensures RecordAll(h, a + b) == RecordAll(RecordAll(h, a), b)
    decreases |a|
  {
    if a == [] {
      assert a + b == b;
    } else {
      assert (a + b)[0] == a[0];
      assert (a + b)[1..] == a[1..] + b;
      RecordAllAppend(Recorded(h, a[0]), a[1..], b);
    }
  }

  /** Keeping the last `n` twice, with more appended between, keeps the last `n`. */
  lemma LastOfLast<T>(a: seq<T>, b: seq<T>, n: nat)
    ensures Last(Last(a, n) + b, n) == Last(a + b, n)
  {
    var la := Last(a, n);
    var x := la + b;
    assert x == (a + b)[|a| - |la|..];
  }

  /** One `_record` on a history within capacity keeps the last twenty. */
  lemma RecordedIsLast(h: seq<Entry>, e: Entry)
    requires |h| <= MAX_HISTORY
    ensures Recorded(h, e) == Last(h + [e], MAX_HISTORY)
  {
  }

  /** FIFO eviction: starting within capacity, recording any entries leaves
      exactly the last `min(20, n)` of everything, oldest first. */
  lemma {:induction false} RecordAllKeepsLast(h: seq<Entry>, es: seq<Entry>)
    requires |h| <= MAX_HISTORY
    ensures RecordAll(h, es) == Last(h + es, MAX_HISTORY)
    ensures |RecordAll(h, es)| <= MAX_HISTORY
    decreases |es|
  {
    if es == [] {
      assert h + es == h;
    } else {
      var h1 := Recorded(h, es[0]);
      assert RecordAll(h, es) == RecordAll(h1, es[1..]);
      RecordedIsLast(h, es[0]);
      assert h1 == Last(h + [es[0]], MAX_HISTORY);
      RecordAllKeepsLast(h1, es[1..]);
      LastOfLast(h + [es[0]], es[1..], MAX_HISTORY);
      assert h + [es[0]] + es[1..] == h + es;
    }
  }

  /** The line `_format` renders for an entry. */
  function FormatEntry(e: Entry, pid: nat): string
  {
    FormatLine(e.timestamp, e.level, pid, e.source, e.message)
  }

  function FormatAll(h: seq<Entry>, pid: nat): (r: seq<string>)
    ensures |r| == |h|
  {
    seq(|h|, i requires 0 <= i < |h| => FormatEntry(h[i], pid))
  }

  lemma FormatAllSnoc(es: seq<Entry>, i: nat, pid: nat)
    requires i < |es|
    ensures FormatAll(es[..i + 1], pid) == FormatAll(es[..i], pid) + [FormatEntry(es[i], pid)]
  {
  }

  /** `history`: every entry formatted, joined with newlines, oldest first. */
  function HistoryText(h: seq<Entry>, pid: nat): string
  {
    Join(FormatAll(h, pid), '\n')
  }

  /** No field of the entry holds a line feed. */
  predicate SingleLineEntry(e: Entry)
  {
    '\n' !in e.timestamp && '\n' !in e.source && '\n' !in e.message
  }

  /** When no entry carries a line feed, the rendered history splits back
      into exactly one formatted line per entry, in order. */
  lemma HistoryLines(h: seq<Entry>, pid: nat)
    requires |h| > 0
    requires forall i :: 0 <= i < |h| ==> SingleLineEntry(h[i])
    ensures Split(HistoryText(h, pid), '\n') == FormatAll(h, pid)
  {
    var lines := FormatAll(h, pid);
    forall i | 0 <= i < |lines| ensures '\n' !in lines[i] {
      FormatSingleLine(h[i].timestamp, h[i].level, pid, h[i].source, h[i].message);
    }
    SplitJoin(lines, '\n');
  }
}
