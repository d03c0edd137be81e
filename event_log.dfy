/** The engine's event log: newest entry first, at most 100 entries, the
    oldest dropped when a new one arrives at capacity. */
module EventLog {

  const LogCapacity: nat := 100

  /** The category of a log line. */
  datatype Kind = Proximity | Request | Error | Info

  /** What a log line reports, standing for its human-readable text. Each
      variant keeps the values the text names. */
  datatype Message =
    | Started(realGps: bool)
    | Stopped
    | Within(signalName: string)
    | WouldPost(ipAddress: string)
    | PostSent(endpoint: string, signalName: string)
    | PostFailed(endpoint: string, reason: string)
    | LeftRange(signalName: string)

  datatype LogEntry = LogEntry(kind: Kind, message: Message)

  function Min(a: int, b: int): int
  {
    if a <= b then a else b
  }

  /** The log updater: the new entry goes in front of at most 99 of the
      previous entries, which keep their order. */
  function AddLog(prev: seq<LogEntry>, e: LogEntry): (r: seq<LogEntry>)
    ensures |r| == Min(|prev| + 1, LogCapacity)
    ensures r[0] == e
    ensures forall i :: 0 < i < |r| ==> r[i] == prev[i - 1]
  {
    [e] + prev[..Min(|prev|, 99)]
  }

  /** The log after adding the entries of `es`, first to last. */
  function AddAll(log: seq<LogEntry>, es: seq<LogEntry>): seq<LogEntry>
    decreases |es|
  {
    if es == [] then log
    else AddLog(AddAll(log, es[..|es| - 1]), es[|es| - 1])
  }

  /** The first `LogCapacity` entries of `s`. */
  function Cap(s: seq<LogEntry>): seq<LogEntry>
  {
    s[..Min(|s|, LogCapacity)]
  }

  function Reversed(s: seq<LogEntry>): seq<LogEntry>
    decreases |s|
  {
    if s == [] then [] else [s[|s| - 1]] + Reversed(s[..|s| - 1])
  }

  lemma {:induction false} ReversedAt(s: seq<LogEntry>, k: nat)
    requires k < |s|
    ensures |Reversed(s)| == |s|
    ensures Reversed(s)[k] == s[|s| - 1 - k]
    decreases |s|
  {
    if k > 0 {
      ReversedAt(s[..|s| - 1], k - 1);
    } else if |s| > 1 {
      ReversedAt(s[..|s| - 1], 0);
    }
  }

  lemma AddLogCap(s: seq<LogEntry>, e: LogEntry)
    ensures AddLog(Cap(s), e) == Cap([e] + s)
  {
    var m := Min(|s|, LogCapacity);
    assert Cap(s)[..Min(m, 99)] == s[..Min(|s|, 99)];
  }

  /** Adding several entries in a row leaves the newest first, followed by
      the older log, cut to capacity. */
  lemma {:induction false} AddAllNewestFirst(log: seq<LogEntry>, es: seq<LogEntry>)
    requires |log| <= LogCapacity
    ensures AddAll(log, es) == Cap(Reversed(es) + log)
    decreases |es|
  {
    if es == [] {
      assert Cap(log) == log;
    } else {
      var init, e := es[..|es| - 1], es[|es| - 1];
      AddAllNewestFirst(log, init);
      AddLogCap(Reversed(init) + log, e);
      assert [e] + (Reversed(init) + log) == Reversed(es) + log;
    }
  }

  /** The log never grows past its capacity. */
  lemma LogStaysBounded(log: seq<LogEntry>, es: seq<LogEntry>)
    requires |log| <= LogCapacity
    ensures |AddAll(log, es)| <= LogCapacity
  {
    AddAllNewestFirst(log, es);
  }

  /** Once at least `LogCapacity` entries have been added, the log holds
      exactly the newest `LogCapacity` of them, newest first: all older
      entries, and the whole earlier log, are gone. */
  lemma NewestEntriesKept(log: seq<LogEntry>, es: seq<LogEntry>)
    requires |log| <= LogCapacity && |es| >= LogCapacity
    ensures |AddAll(log, es)| == LogCapacity
    ensures forall i :: 0 <= i < LogCapacity ==> AddAll(log, es)[i] == es[|es| - 1 - i]
  {
    AddAllNewestFirst(log, es);
    ReversedAt(es, 0);
    forall i | 0 <= i < LogCapacity
      ensures AddAll(log, es)[i] == es[|es| - 1 - i]
    {
      ReversedAt(es, i);
    }
  }

  lemma AddAllOne(log: seq<LogEntry>, e: LogEntry)
    ensures AddAll(log, [e]) == AddLog(log, e)
  {
    assert [e][..0] == [];
  }

  lemma AddAllTwo(log: seq<LogEntry>, e1: LogEntry, e2: LogEntry)
    ensures AddAll(log, [e1, e2]) == AddLog(AddLog(log, e1), e2)
  {
    assert [e1, e2][..1] == [e1];
    AddAllOne(log, e1);
  }

  /** Adding a concatenation is adding its two halves in turn. */
  lemma {:induction false} AddAllConcat(log: seq<LogEntry>, a: seq<LogEntry>, b: seq<LogEntry>)
    ensures AddAll(log, a + b) == AddAll(AddAll(log, a), b)
    decreases |b|
  {
    if b != [] {
      var init := b[..|b| - 1];
      assert (a + b)[..|a + b| - 1] == a + init;
      AddAllConcat(log, a, init);
    } else {
      assert a + b == a;
    }
  }

  /** The number of entries of category `k` in `es`. */
  function CountKind(es: seq<LogEntry>, k: Kind): nat
    decreases |es|
  {
    if es == [] then 0
    else CountKind(es[..|es| - 1], k) + (if es[|es| - 1].kind == k then 1 else 0)
  }

  lemma {:induction false} CountKindConcat(a: seq<LogEntry>, b: seq<LogEntry>, k: Kind)
    ensures CountKind(a + b, k) == CountKind(a, k) + CountKind(b, k)
    decreases |b|
  {
    if b == [] {
      assert a + b == a;
    } else {
      var init := b[..|b| - 1];
      assert (a + b)[..|a + b| - 1] == a + init;
      CountKindConcat(a, init, k);
    }
  }
}
