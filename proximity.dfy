/** One proximity pass over the signal registry, as pure functions: for every
    signal, in registry order, whether it enters range, leaves range or keeps
    its state; the signals afterwards; the log entries and the outbound
    requests the pass produces. The engine's loop is proved against these. */
module Proximity {
  import opened Geo
  import opened EventLog

  /** What one position update does to one signal. */
  datatype Change = Enter | Leave | Keep

  /** An outbound "switch to green" call for one signal, still in flight. */
  datatype PostRequest = PostRequest(endpoint: string, signalId: string, signalName: string)

  /** Entering: in range and not yet triggered. Leaving: out of range and
      triggered. Otherwise nothing happens. Either way the signal ends up
      triggered exactly when it is in range. */
  function ChangeOf(inRange: bool, triggered: bool): (c: Change)
    ensures c == Enter <==> inRange && !triggered
    ensures c == Leave <==> !inRange && triggered
    ensures c == Keep <==> inRange == triggered
    ensures (if c == Keep then triggered else c == Enter) == inRange
  {
    if inRange && !triggered then Enter
    else if !inRange && triggered then Leave
    else Keep
  }

  function ChangeAt(dist: Distance, pos: Coordinate, triggered: set<string>, l: TrafficLight): Change
  {
    ChangeOf(SignalInRange(dist, pos, l), l.id in triggered)
  }

  function Apply(l: TrafficLight, c: Change): TrafficLight
  {
    match c
    case Enter => l.(status := Green)
    case Leave => l.(status := Red)
    case Keep => l
  }

  /** The entries one signal's change logs at once. A proximity entry on
      entry, followed by an info entry when requests are disabled; an info
      entry on exit; nothing otherwise. */
  function EntriesFor(l: TrafficLight, c: Change, sendRequests: bool): seq<LogEntry>
  {
    match c
    case Enter =>
      [LogEntry(Proximity, Within(l.name))] +
      (if sendRequests then [] else [LogEntry(Info, WouldPost(l.ipAddress))])
    case Leave => [LogEntry(Info, LeftRange(l.name))]
    case Keep => []
  }

  /** The request one signal's change issues: one on entry when enabled. */
  function RequestsFor(l: TrafficLight, c: Change, sendRequests: bool, endpoint: string): seq<PostRequest>
  {
    if c == Enter && sendRequests then [PostRequest(endpoint, l.id, l.name)] else []
  }

  /** The registry after one pass: same length and order, and every field but
      the status unchanged. */
  function UpdatedLights(dist: Distance, pos: Coordinate, triggered: set<string>, ls: seq<TrafficLight>)
    : (r: seq<TrafficLight>)
    ensures |r| == |ls|
    ensures forall i :: 0 <= i < |ls| ==> r[i].(status := ls[i].status) == ls[i]
  {
    seq(|ls|, i requires 0 <= i < |ls| => Apply(ls[i], ChangeAt(dist, pos, triggered, ls[i])))
  }

  /** All entries of one pass, in the order they are logged. */
  function BatchEntries(dist: Distance, pos: Coordinate, triggered: set<string>, sendRequests: bool,
                        ls: seq<TrafficLight>): seq<LogEntry>
    decreases |ls|
  {
    if ls == [] then []
    else
      var n := |ls| - 1;
      BatchEntries(dist, pos, triggered, sendRequests, ls[..n]) +
      EntriesFor(ls[n], ChangeAt(dist, pos, triggered, ls[n]), sendRequests)
  }

  /** All requests of one pass, in the order they are issued. */
  function BatchRequests(dist: Distance, pos: Coordinate, triggered: set<string>, sendRequests: bool,
                         endpoint: string, ls: seq<TrafficLight>): seq<PostRequest>
    decreases |ls|
  {
    if ls == [] then []
    else
      var n := |ls| - 1;
      BatchRequests(dist, pos, triggered, sendRequests, endpoint, ls[..n]) +
      RequestsFor(ls[n], ChangeAt(dist, pos, triggered, ls[n]), sendRequests, endpoint)
  }

  /** How many signals of `ls` undergo change `c`. */
  function CountChanges(dist: Distance, pos: Coordinate, triggered: set<string>, ls: seq<TrafficLight>,
                        c: Change): nat
    decreases |ls|
  {
    if ls == [] then 0
    else
      var n := |ls| - 1;
      CountChanges(dist, pos, triggered, ls[..n], c) +
      (if ChangeAt(dist, pos, triggered, ls[n]) == c then 1 else 0)
  }

  /** The triggered set after one signal's change. */
  function Retrigger(triggered: set<string>, l: TrafficLight, c: Change): set<string>
  {
    match c
    case Enter => triggered + {l.id}
    case Leave => triggered - {l.id}
    case Keep => triggered
  }

  /** The ids of the signals of `ls` in range of `pos`. */
  function InRangeIds(dist: Distance, pos: Coordinate, ls: seq<TrafficLight>): set<string>
  {
    set l | l in ls && SignalInRange(dist, pos, l) :: l.id
  }

  function StatusFor(triggered: bool): Status
  {
    if triggered then Green else Red
  }

  /** The registry/triggered-set invariant: ids are distinct, the set holds
      only registry ids, and a signal is green exactly when its id is in the
      set and red otherwise (never yellow). */
  predicate Coherent(ls: seq<TrafficLight>, triggered: set<string>)
  {
    DistinctIds(ls) &&
    triggered <= IdsOf(ls) &&
    forall i :: 0 <= i < |ls| ==> ls[i].status == StatusFor(ls[i].id in triggered)
  }

  /** The defaults with an empty set establish the invariant. */
  lemma DefaultsCoherent()
    ensures Coherent(DefaultTrafficLights(), {})
  {
  }

  /** A coherent registry has no yellow signal. */
  lemma CoherentNeverYellow(ls: seq<TrafficLight>, triggered: set<string>, i: nat)
    requires Coherent(ls, triggered) && i < |ls|
    ensures ls[i].status in {Red, Green}
  {
  }

  lemma IdsOfSnoc(ls: seq<TrafficLight>, l: TrafficLight)
    ensures IdsOf(ls + [l]) == IdsOf(ls) + {l.id}
  {
    assert l in ls + [l];
    forall x | x in IdsOf(ls + [l]) ensures x in IdsOf(ls) + {l.id} {
      var m :| m in ls + [l] && m.id == x;
      if m != l { assert m in ls; }
    }
    forall x | x in IdsOf(ls) ensures x in IdsOf(ls + [l]) {
      var m :| m in ls && m.id == x;
      assert m in ls + [l];
    }
  }

  lemma InRangeIdsSnoc(dist: Distance, pos: Coordinate, ls: seq<TrafficLight>, l: TrafficLight)
    ensures InRangeIds(dist, pos, ls + [l]) ==
            InRangeIds(dist, pos, ls) + (if SignalInRange(dist, pos, l) then {l.id} else {})
  {
    assert l in ls + [l];
    forall x | x in InRangeIds(dist, pos, ls + [l])
      ensures x in InRangeIds(dist, pos, ls) + (if SignalInRange(dist, pos, l) then {l.id} else {})
    {
      var m :| m in ls + [l] && SignalInRange(dist, pos, m) && m.id == x;
      if m != l { assert m in ls; }
    }
    forall x | x in InRangeIds(dist, pos, ls) ensures x in InRangeIds(dist, pos, ls + [l]) {
      var m :| m in ls && SignalInRange(dist, pos, m) && m.id == x;
      assert m in ls + [l];
    }
  }

  /** With distinct ids, a signal's id is among the in-range ids exactly when
      that signal itself is in range. */
  lemma InRangeIdsMember(dist: Distance, pos: Coordinate, ls: seq<TrafficLight>, i: nat)
    requires DistinctIds(ls) && i < |ls|
    ensures ls[i].id in InRangeIds(dist, pos, ls) <==> SignalInRange(dist, pos, ls[i])
    ensures ls[i].id in IdsOf(ls)
  {
    assert ls[i] in ls;
    if ls[i].id in InRangeIds(dist, pos, ls) {
      var m :| m in ls && SignalInRange(dist, pos, m) && m.id == ls[i].id;
      var j :| 0 <= j < |ls| && ls[j] == m;
      assert j == i;
    }
  }

  lemma InRangeIdsWithinIds(dist: Distance, pos: Coordinate, ls: seq<TrafficLight>)
    ensures InRangeIds(dist, pos, ls) <= IdsOf(ls)
  {
  }

  /** With distinct ids, no signal's id occurs among the ids of the signals
      before it. */
  lemma LaterIdNotSeen(ls: seq<TrafficLight>, i: nat)
    requires DistinctIds(ls) && i < |ls|
    ensures ls[i].id !in IdsOf(ls[..i])
  {
  }

  /** Processing signal `i` after the signals before it extends each part of
      the pass by that signal's part. While the signals are processed in
      order, the live set answers for signal `i` as the set did before the
      pass, because no earlier signal shares its id. */
  lemma PassStep(dist: Distance, pos: Coordinate, t0: set<string>, sendRequests: bool, endpoint: string,
                 ls: seq<TrafficLight>, i: nat, live: set<string>)
    requires DistinctIds(ls) && i < |ls|
    requires live == (t0 - IdsOf(ls[..i])) + InRangeIds(dist, pos, ls[..i])
    ensures ls[i].id in live <==> ls[i].id in t0
    ensures var c := ChangeAt(dist, pos, t0, ls[i]);
      UpdatedLights(dist, pos, t0, ls[..i + 1]) == UpdatedLights(dist, pos, t0, ls[..i]) + [Apply(ls[i], c)] &&
      BatchEntries(dist, pos, t0, sendRequests, ls[..i + 1]) ==
        BatchEntries(dist, pos, t0, sendRequests, ls[..i]) + EntriesFor(ls[i], c, sendRequests) &&
      BatchRequests(dist, pos, t0, sendRequests, endpoint, ls[..i + 1]) ==
        BatchRequests(dist, pos, t0, sendRequests, endpoint, ls[..i]) + RequestsFor(ls[i], c, sendRequests, endpoint) &&
      Retrigger(live, ls[i], c) == (t0 - IdsOf(ls[..i + 1])) + InRangeIds(dist, pos, ls[..i + 1])
  {
    var l, done := ls[i], ls[..i];
    assert ls[..i + 1] == done + [l] && (done + [l])[..i] == done;
    LaterIdNotSeen(ls, i);
    InRangeIdsWithinIds(dist, pos, done);
    IdsOfSnoc(done, l);
    InRangeIdsSnoc(dist, pos, done, l);
  }

  /** Where a pass stands after its first `i` signals: the signals produced
      so far, the live triggered set, the log and the requests issued. */
  ghost predicate PassAt(dist: Distance, pos: Coordinate, t0: set<string>, sendRequests: bool, endpoint: string,
                         ls: seq<TrafficLight>, i: nat, log0: seq<LogEntry>, sent0: seq<PostRequest>,
                         out: seq<TrafficLight>, live: set<string>, log: seq<LogEntry>, sent: seq<PostRequest>)
  {
    i <= |ls| &&
    out == UpdatedLights(dist, pos, t0, ls[..i]) &&
    live == (t0 - IdsOf(ls[..i])) + InRangeIds(dist, pos, ls[..i]) &&
    log == AddAll(log0, BatchEntries(dist, pos, t0, sendRequests, ls[..i])) &&
    sent == sent0 + BatchRequests(dist, pos, t0, sendRequests, endpoint, ls[..i])
  }

  /** Applying the per-signal rule to signal `i`, judged against the live
      set, moves a pass from its first `i` signals to its first `i + 1`. */
  lemma PassAdvances(dist: Distance, pos: Coordinate, t0: set<string>, sendRequests: bool, endpoint: string,
                     ls: seq<TrafficLight>, i: nat, log0: seq<LogEntry>, sent0: seq<PostRequest>,
                     out: seq<TrafficLight>, live: set<string>, log: seq<LogEntry>, sent: seq<PostRequest>,
                     r: TrafficLight, live': set<string>, log': seq<LogEntry>, sent': seq<PostRequest>)
    requires DistinctIds(ls) && i < |ls|
    requires PassAt(dist, pos, t0, sendRequests, endpoint, ls, i, log0, sent0, out, live, log, sent)
    requires var c := ChangeOf(SignalInRange(dist, pos, ls[i]), ls[i].id in live);
      r == Apply(ls[i], c) &&
      live' == Retrigger(live, ls[i], c) &&
      log' == AddAll(log, EntriesFor(ls[i], c, sendRequests)) &&
      sent' == sent + RequestsFor(ls[i], c, sendRequests, endpoint)
    ensures PassAt(dist, pos, t0, sendRequests, endpoint, ls, i + 1, log0, sent0, out + [r], live', log', sent')
  {
    PassStep(dist, pos, t0, sendRequests, endpoint, ls, i, live);
    AddAllConcat(log0, BatchEntries(dist, pos, t0, sendRequests, ls[..i]),
                 EntriesFor(ls[i], ChangeAt(dist, pos, t0, ls[i]), sendRequests));
  }

  /** One pass keeps the invariant: afterwards the triggered set is exactly
      the set of in-range ids, and every signal is green if it is in range
      and red if it is not. */
  lemma UpdatePreservesCoherence(dist: Distance, pos: Coordinate, triggered: set<string>,
                                 ls: seq<TrafficLight>)
    requires Coherent(ls, triggered)
    ensures (triggered - IdsOf(ls)) + InRangeIds(dist, pos, ls) == InRangeIds(dist, pos, ls)
    ensures forall i :: 0 <= i < |ls| ==>
      UpdatedLights(dist, pos, triggered, ls)[i] ==
      ls[i].(status := StatusFor(SignalInRange(dist, pos, ls[i])))
    ensures Coherent(UpdatedLights(dist, pos, triggered, ls), InRangeIds(dist, pos, ls))
  {
    var r := UpdatedLights(dist, pos, triggered, ls);
    var near := InRangeIds(dist, pos, ls);
    forall i | 0 <= i < |ls|
      ensures r[i] == ls[i].(status := StatusFor(SignalInRange(dist, pos, ls[i])))
      ensures r[i].status == StatusFor(r[i].id in near)
    {
      InRangeIdsMember(dist, pos, ls, i);
    }
    assert DistinctIds(r) by {
      forall i, j | 0 <= i < j < |r| ensures r[i].id != r[j].id {
        assert r[i].id == ls[i].id && r[j].id == ls[j].id;
      }
    }
    forall x | x in near ensures x in IdsOf(r) {
      var m :| m in ls && SignalInRange(dist, pos, m) && m.id == x;
      var j :| 0 <= j < |ls| && ls[j] == m;
      assert r[j] in r && r[j].id == x;
    }
  }

  /** Whether a signal changes on a fix depends only on whether its range
      flipped since the previous fix: after a pass at `pos1`, the pass at
      `pos2` enters a signal exactly when it moved into range, leaves it
      exactly when it moved out, and keeps it otherwise. */
  lemma ChangeFollowsRange(dist: Distance, triggered: set<string>, ls: seq<TrafficLight>,
                           pos1: Coordinate, pos2: Coordinate, i: nat)
    requires Coherent(ls, triggered) && i < |ls|
    ensures ChangeAt(dist, pos2, InRangeIds(dist, pos1, ls), UpdatedLights(dist, pos1, triggered, ls)[i])
         == ChangeOf(SignalInRange(dist, pos2, ls[i]), SignalInRange(dist, pos1, ls[i]))
  {
    InRangeIdsMember(dist, pos1, ls, i);
  }

  lemma {:induction false} AllKeepIsQuiet(dist: Distance, pos: Coordinate, triggered: set<string>,
                                          sendRequests: bool, endpoint: string, ls: seq<TrafficLight>)
    requires forall i :: 0 <= i < |ls| ==> ChangeAt(dist, pos, triggered, ls[i]) == Keep
    ensures BatchEntries(dist, pos, triggered, sendRequests, ls) == []
    ensures BatchRequests(dist, pos, triggered, sendRequests, endpoint, ls) == []
    decreases |ls|
  {
    if ls != [] {
      var n := |ls| - 1;
      assert ChangeAt(dist, pos, triggered, ls[n]) == Keep;
      AllKeepIsQuiet(dist, pos, triggered, sendRequests, endpoint, ls[..n]);
    }
  }

  /** A fix at which no signal's range differs from the previous fix changes
      nothing and logs nothing: in particular, staying in range over repeated
      ticks logs a proximity entry only once. */
  lemma StayingInRangeIsQuiet(dist: Distance, triggered: set<string>, ls: seq<TrafficLight>,
                              pos1: Coordinate, pos2: Coordinate, sendRequests: bool, endpoint: string)
    requires Coherent(ls, triggered)
    requires forall i :: 0 <= i < |ls| ==>
      SignalInRange(dist, pos2, ls[i]) == SignalInRange(dist, pos1, ls[i])
    ensures var ls1 := UpdatedLights(dist, pos1, triggered, ls);
            var t1 := InRangeIds(dist, pos1, ls);
            UpdatedLights(dist, pos2, t1, ls1) == ls1 &&
            BatchEntries(dist, pos2, t1, sendRequests, ls1) == [] &&
            BatchRequests(dist, pos2, t1, sendRequests, endpoint, ls1) == []
  {
    var ls1 := UpdatedLights(dist, pos1, triggered, ls);
    var t1 := InRangeIds(dist, pos1, ls);
    forall i | 0 <= i < |ls1| ensures ChangeAt(dist, pos2, t1, ls1[i]) == Keep {
      ChangeFollowsRange(dist, triggered, ls, pos1, pos2, i);
    }
    AllKeepIsQuiet(dist, pos2, t1, sendRequests, endpoint, ls1);
  }

  /** Exactly one proximity entry per signal entering range, exactly one info
      entry per signal leaving it (plus one per entry when requests are
      disabled), no request or error entry at once, and exactly one
      outbound request per entry when requests are enabled. */
  lemma {:induction false} EntryCounts(dist: Distance, pos: Coordinate, triggered: set<string>,
                                       sendRequests: bool, endpoint: string, ls: seq<TrafficLight>)
    ensures CountKind(BatchEntries(dist, pos, triggered, sendRequests, ls), Proximity)
         == CountChanges(dist, pos, triggered, ls, Enter)
    ensures CountKind(BatchEntries(dist, pos, triggered, sendRequests, ls), Info)
         == CountChanges(dist, pos, triggered, ls, Leave) +
            (if sendRequests then 0 else CountChanges(dist, pos, triggered, ls, Enter))
    ensures CountKind(BatchEntries(dist, pos, triggered, sendRequests, ls), Request) == 0
    ensures CountKind(BatchEntries(dist, pos, triggered, sendRequests, ls), Error) == 0
    ensures |BatchRequests(dist, pos, triggered, sendRequests, endpoint, ls)|
         == if sendRequests then CountChanges(dist, pos, triggered, ls, Enter) else 0
    decreases |ls|
  {
    if ls != [] {
      var n := |ls| - 1;
      var l := ls[n];
      var c := ChangeAt(dist, pos, triggered, l);
      EntryCounts(dist, pos, triggered, sendRequests, endpoint, ls[..n]);
      var es := EntriesFor(l, c, sendRequests);
      forall k: Kind
        ensures CountKind(BatchEntries(dist, pos, triggered, sendRequests, ls), k)
             == CountKind(BatchEntries(dist, pos, triggered, sendRequests, ls[..n]), k) + CountKind(es, k)
      {
        CountKindConcat(BatchEntries(dist, pos, triggered, sendRequests, ls[..n]), es, k);
      }
      match c {
        case Enter =>
          var p := LogEntry(Proximity, Within(l.name));
          if sendRequests {
            assert es == [p];
            assert es[..0] == [];
          } else {
            var w := LogEntry(Info, WouldPost(l.ipAddress));
            assert es == [p, w];
            assert es[..1] == [p] && [p][..0] == [];
            assert CountKind([p], Proximity) == 1 && CountKind([p], Info) == 0;
            assert CountKind([p], Request) == 0 && CountKind([p], Error) == 0;
            assert CountKind(es, Proximity) == 1 && CountKind(es, Info) == 1;
            assert CountKind(es, Request) == 0 && CountKind(es, Error) == 0;
          }
        case Leave =>
          assert es[..0] == [];
        case Keep =>
      }
    }
  }

  /** With requests enabled, every signal a pass enters gets a request to
      the endpoint naming it. */
  lemma {:induction false} EnteringSignalIsRequested(dist: Distance, pos: Coordinate, triggered: set<string>,
                                                     endpoint: string, ls: seq<TrafficLight>, k: nat)
    requires k < |ls| && ChangeAt(dist, pos, triggered, ls[k]) == Enter
    ensures PostRequest(endpoint, ls[k].id, ls[k].name) in BatchRequests(dist, pos, triggered, true, endpoint, ls)
    decreases |ls|
  {
    var n := |ls| - 1;
    if k < n {
      assert ls[..n][k] == ls[k];
      EnteringSignalIsRequested(dist, pos, triggered, endpoint, ls[..n], k);
    }
  }

  /** With requests disabled, when the last signal of the registry enters,
      the newest entry of the log after the pass is the one naming the
      address it would have been sent to. */
  lemma LastQuietEntryIsNewest(dist: Distance, pos: Coordinate, triggered: set<string>,
                               ls: seq<TrafficLight>, log: seq<LogEntry>)
    requires |ls| > 0 && ChangeAt(dist, pos, triggered, ls[|ls| - 1]) == Enter
    ensures AddAll(log, BatchEntries(dist, pos, triggered, false, ls))[0]
         == LogEntry(Info, WouldPost(ls[|ls| - 1].ipAddress))
  {
    var es := BatchEntries(dist, pos, triggered, false, ls);
    assert es[|es| - 1] == LogEntry(Info, WouldPost(ls[|ls| - 1].ipAddress));
  }
}
