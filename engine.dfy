/** The simulation engine: the state cells of the simulation hook and the
    commands that update them in place. */
module Engine {
  import opened Geo
  import opened EventLog
  import opened Proximity

  /** How an outbound request completes. */
  datatype PostOutcome = Delivered | Failed(reason: string)

  /** The one entry a completed request logs: a request entry when it was
      delivered, an error entry with the failure reason otherwise. */
  function SettledEntry(req: PostRequest, outcome: PostOutcome): (e: LogEntry)
    ensures e.kind == Request <==> outcome.Delivered?
    ensures e.kind == Error <==> outcome.Failed?
    ensures outcome.Delivered? ==> e.message == PostSent(req.endpoint, req.signalName)
    ensures outcome.Failed? ==> e.message == PostFailed(req.endpoint, outcome.reason)
  {
    match outcome
    case Delivered => LogEntry(Request, PostSent(req.endpoint, req.signalName))
    case Failed(reason) => LogEntry(Error, PostFailed(req.endpoint, reason))
  }

  class Simulation {
    /** The distance between two points, and the synthetic path: where the
        ambulance is after a given number of ticks. */
    const dist: Distance
    const pathAt: nat -> Coordinate

    var ambulancePos: Coordinate
    var trafficLights: seq<TrafficLight>
    var isRunning: bool
    var logs: seq<LogEntry>
    var useRealGps: bool
    var espEndpoint: string
    var sendRequests: bool
    /** Whether a periodic tick timer is installed. */
    var intervalActive: bool
    /** The request settings the installed timer's ticks run with: those in
        force when Start installed it, not the current ones. */
    var tickSendRequests: bool
    var tickEndpoint: string
    var step: nat
    var triggered: set<string>
    /** Outbound requests issued and not yet completed. */
    var inFlight: seq<PostRequest>

    ghost predicate Valid()
      reads this
    {
      DistanceLaws(dist) &&
      Coherent(trafficLights, triggered) &&
      |logs| <= LogCapacity &&
      (intervalActive ==> isRunning)
    }

    constructor (dist: Distance, pathAt: nat -> Coordinate)
      requires DistanceLaws(dist)
      ensures Valid()
      ensures this.dist == dist && this.pathAt == pathAt
      ensures ambulancePos == DefaultAmbulanceStart && trafficLights == DefaultTrafficLights()
      ensures !isRunning && logs == [] && !useRealGps
      ensures espEndpoint == "http://192.168.1.100" && !sendRequests
      ensures !intervalActive && step == 0 && triggered == {} && inFlight == []
      ensures tickSendRequests == sendRequests && tickEndpoint == espEndpoint
    {
      this.dist := dist;
      this.pathAt := pathAt;
      ambulancePos := DefaultAmbulanceStart;
      trafficLights := DefaultTrafficLights();
      isRunning := false;
      logs := [];
      useRealGps := false;
      espEndpoint := "http://192.168.1.100";
      sendRequests := false;
      intervalActive := false;
      tickSendRequests := false;
      tickEndpoint := "http://192.168.1.100";
      step := 0;
      triggered := {};
      inFlight := [];
      DefaultsCoherent();
    }

    method Log(kind: Kind, message: Message)
      modifies this`logs
      ensures logs == AddLog(old(logs), LogEntry(kind, message))
    {
      logs := AddLog(logs, LogEntry(kind, message));
    }

    /** The per-signal rule of a proximity pass. A signal in range whose id
        is not in the set enters: its id is added, it turns green, a proximity
        entry is logged, then a request is issued or, with requests disabled,
        an info entry is logged. A signal out of range whose id is in the set
        leaves: its id is removed, it turns red, an info entry is logged.
        Any other signal is returned as it is. */
    method ProcessSignal(pos: Coordinate, l: TrafficLight, send: bool, endpoint: string)
      returns (r: TrafficLight)
      modifies this`triggered, this`logs, this`inFlight
      ensures var c := ChangeOf(SignalInRange(dist, pos, l), l.id in old(triggered));
        r == Apply(l, c) &&
        triggered == Retrigger(old(triggered), l, c) &&
        logs == AddAll(old(logs), EntriesFor(l, c, send)) &&
        inFlight == old(inFlight) + RequestsFor(l, c, send, endpoint)
    {
      var d := dist(pos, l.position);
      var inRange := d <= ProximityThreshold;
      AddAllTwo(logs, LogEntry(Proximity, Within(l.name)), LogEntry(Info, WouldPost(l.ipAddress)));
      AddAllOne(logs, LogEntry(Info, LeftRange(l.name)));
      if inRange && l.id !in triggered {
        triggered := triggered + {l.id};
        Log(Proximity, Within(l.name));
        if send {
          inFlight := inFlight + [PostRequest(endpoint, l.id, l.name)];
        } else {
          Log(Info, WouldPost(l.ipAddress));
        }
        return l.(status := Green);
      }
      if !inRange && l.id in triggered {
        triggered := triggered - {l.id};
        Log(Info, LeftRange(l.name));
        return l.(status := Red);
      }
      return l;
    }

    /** The walk over the registry that a proximity pass makes: every signal
        of `ls`, in order, goes through the per-signal rule. Since ids are
        distinct, each signal is judged against the set as it was before the
        walk. */
    method MapSignals(pos: Coordinate, ls: seq<TrafficLight>, send: bool, endpoint: string)
      returns (out: seq<TrafficLight>)
      requires DistinctIds(ls)
      modifies this`triggered, this`logs, this`inFlight
      ensures out == UpdatedLights(dist, pos, old(triggered), ls)
      ensures triggered == (old(triggered) - IdsOf(ls)) + InRangeIds(dist, pos, ls)
      ensures logs == AddAll(old(logs), BatchEntries(dist, pos, old(triggered), send, ls))
      ensures inFlight == old(inFlight) + BatchRequests(dist, pos, old(triggered), send, endpoint, ls)
    {
      ghost var t0, l0, f0 := triggered, logs, inFlight;
      out := [];
      var i := 0;
      assert ls[..0] == [];
      while i < |ls|
        invariant PassAt(dist, pos, t0, send, endpoint, ls, i, l0, f0, out, triggered, logs, inFlight)
      {
        ghost var live, log, sent := triggered, logs, inFlight;
        var r := ProcessSignal(pos, ls[i], send, endpoint);
        PassAdvances(dist, pos, t0, send, endpoint, ls, i, l0, f0, out, live, log, sent,
                     r, triggered, logs, inFlight);
        out := out + [r];
        i := i + 1;
      }
      assert ls[..i] == ls;
    }

    /** One proximity pass at `pos`, run with the request settings `send`
        and `endpoint` of the handler it is called from. Afterwards every
        signal is green if it is in range and red if not, the triggered set
        is the set of in-range ids, and the entries and requests of the pass
        have been logged and issued in registry order. */
    method CheckProximity(pos: Coordinate, send: bool, endpoint: string)
      requires Valid()
      modifies this`trafficLights, this`triggered, this`logs, this`inFlight
      ensures Valid()
      ensures trafficLights == UpdatedLights(dist, pos, old(triggered), old(trafficLights))
      ensures forall i :: 0 <= i < |trafficLights| ==>
        trafficLights[i] ==
        old(trafficLights)[i].(status := StatusFor(SignalInRange(dist, pos, old(trafficLights)[i])))
      ensures triggered == InRangeIds(dist, pos, old(trafficLights))
      ensures logs == AddAll(old(logs), BatchEntries(dist, pos, old(triggered), send, old(trafficLights)))
      ensures inFlight == old(inFlight) + BatchRequests(dist, pos, old(triggered), send, endpoint, old(trafficLights))
    {
      UpdatePreservesCoherence(dist, pos, triggered, trafficLights);
      LogStaysBounded(logs, BatchEntries(dist, pos, triggered, send, trafficLights));
      trafficLights := MapSignals(pos, trafficLights, send, endpoint);
    }

    /** What every position update does: the ambulance moves to `pos`, then
        one proximity pass runs with the given request settings. A signal the
        ambulance stands on is green afterwards. */
    method MoveTo(pos: Coordinate, send: bool, endpoint: string)
      requires Valid()
      modifies this`ambulancePos, this`trafficLights, this`triggered, this`logs, this`inFlight
      ensures Valid()
      ensures ambulancePos == pos
      ensures trafficLights == UpdatedLights(dist, pos, old(triggered), old(trafficLights))
      ensures forall i :: 0 <= i < |trafficLights| ==>
        trafficLights[i] ==
        old(trafficLights)[i].(status := StatusFor(SignalInRange(dist, pos, old(trafficLights)[i])))
      ensures forall i :: 0 <= i < |trafficLights| && old(trafficLights)[i].position == pos ==>
        trafficLights[i].status == Green
      ensures triggered == InRangeIds(dist, pos, old(trafficLights))
      ensures logs == AddAll(old(logs), BatchEntries(dist, pos, old(triggered), send, old(trafficLights)))
      ensures inFlight == old(inFlight) + BatchRequests(dist, pos, old(triggered), send, endpoint, old(trafficLights))
    {
      ambulancePos := pos;
      CheckProximity(pos, send, endpoint);
      forall i | 0 <= i < |trafficLights| && old(trafficLights)[i].position == pos
        ensures trafficLights[i].status == Green
      {
        InRangeAtSignal(dist, pos, old(trafficLights)[i]);
      }
    }

    /** A live position fix. Fixes arrive only while the live feed is
        selected and the engine runs, and the subscription is renewed
        whenever the settings change, so a fix runs with the current
        settings. */
    method OnPositionFix(pos: Coordinate)
      requires Valid() && isRunning && useRealGps
      modifies this`ambulancePos, this`trafficLights, this`triggered, this`logs, this`inFlight
      ensures Valid()
      ensures ambulancePos == pos
      ensures trafficLights == UpdatedLights(dist, pos, old(triggered), old(trafficLights))
      ensures triggered == InRangeIds(dist, pos, old(trafficLights))
      ensures logs == AddAll(old(logs), BatchEntries(dist, pos, old(triggered), sendRequests, old(trafficLights)))
      ensures inFlight ==
        old(inFlight) + BatchRequests(dist, pos, old(triggered), sendRequests, espEndpoint, old(trafficLights))
    {
      MoveTo(pos, sendRequests, espEndpoint);
    }

    /** One tick of the installed timer: the step counter goes up by exactly
        one, the ambulance moves to the path point for the new step, and the
        pass runs with the request settings captured when the timer was
        installed. Ticks only come while a timer is installed, so none
        follows a stop or a reset. */
    method SimulateStep()
      requires Valid() && intervalActive
      modifies this`step, this`ambulancePos, this`trafficLights, this`triggered, this`logs, this`inFlight
      ensures Valid()
      ensures step == old(step) + 1
      ensures ambulancePos == pathAt(step)
      ensures trafficLights == UpdatedLights(dist, pathAt(step), old(triggered), old(trafficLights))
      ensures triggered == InRangeIds(dist, pathAt(step), old(trafficLights))
      ensures logs ==
        AddAll(old(logs), BatchEntries(dist, pathAt(step), old(triggered), tickSendRequests, old(trafficLights)))
      ensures inFlight == old(inFlight) +
        BatchRequests(dist, pathAt(step), old(triggered), tickSendRequests, tickEndpoint, old(trafficLights))
    {
      step := step + 1;
      MoveTo(pathAt(step), tickSendRequests, tickEndpoint);
    }

    /** A tick that honours the request settings in force at the tick, as
        the request switch and endpoint field, which stay editable while
        running, promise. */
    method SimulateStepCurrentSettings()
      requires Valid() && intervalActive
      modifies this`step, this`ambulancePos, this`trafficLights, this`triggered, this`logs, this`inFlight
      ensures Valid()
      ensures step == old(step) + 1
      ensures ambulancePos == pathAt(step)
      ensures trafficLights == UpdatedLights(dist, pathAt(step), old(triggered), old(trafficLights))
      ensures triggered == InRangeIds(dist, pathAt(step), old(trafficLights))
      ensures logs ==
        AddAll(old(logs), BatchEntries(dist, pathAt(step), old(triggered), sendRequests, old(trafficLights)))
      ensures inFlight == old(inFlight) +
        BatchRequests(dist, pathAt(step), old(triggered), sendRequests, espEndpoint, old(trafficLights))
    {
      step := step + 1;
      MoveTo(pathAt(step), sendRequests, espEndpoint);
    }

    /** Start: running, one info entry naming the position source, and,
        unless the live feed is selected, a tick timer installed that keeps
        the request settings of this moment. */
    method Start()
      requires Valid()
      modifies this`isRunning, this`logs, this`intervalActive, this`tickSendRequests, this`tickEndpoint
      ensures Valid()
      ensures isRunning
      ensures logs == AddLog(old(logs), LogEntry(Info, Started(useRealGps)))
      ensures intervalActive == (old(intervalActive) || !useRealGps)
      ensures !useRealGps ==> tickSendRequests == sendRequests && tickEndpoint == espEndpoint
      ensures useRealGps ==> tickSendRequests == old(tickSendRequests) && tickEndpoint == old(tickEndpoint)
    {
      isRunning := true;
      Log(Info, Started(useRealGps));
      if !useRealGps {
        intervalActive := true;
        tickSendRequests, tickEndpoint := sendRequests, espEndpoint;
      }
    }

    /** Stop: idle, no tick timer, and one "stopped" info entry on every
        call, also when already idle. */
    method Stop()
      requires Valid()
      modifies this`isRunning, this`logs, this`intervalActive
      ensures Valid()
      ensures !isRunning && !intervalActive
      ensures logs == AddLog(old(logs), LogEntry(Info, Stopped))
    {
      isRunning := false;
      if intervalActive {
        intervalActive := false;
      }
      Log(Info, Stopped);
    }

    /** Reset: stop, then every state cell back to its initial value. Requests
        already in flight are not cancelled. */
    method Reset()
      requires Valid()
      modifies this`isRunning, this`logs, this`intervalActive, this`step, this`triggered,
               this`ambulancePos, this`trafficLights
      ensures Valid()
      ensures !isRunning && !intervalActive && step == 0 && triggered == {}
      ensures ambulancePos == DefaultAmbulanceStart && trafficLights == DefaultTrafficLights()
      ensures logs == []
    {
      Stop();
      step := 0;
      triggered := {};
      ambulancePos := DefaultAmbulanceStart;
      trafficLights := DefaultTrafficLights();
      logs := [];
      DefaultsCoherent();
    }

    /** The completion of request `k`: it leaves the in-flight list and logs
        exactly one request or error entry. Signals and the triggered set are
        untouched, so a signal stays green whatever the outcome. */
    method OnPostSettled(k: nat, outcome: PostOutcome)
      requires Valid() && k < |inFlight|
      modifies this`inFlight, this`logs
      ensures Valid()
      ensures inFlight == old(inFlight[..k] + inFlight[k + 1..])
      ensures logs == AddLog(old(logs), SettledEntry(old(inFlight[k]), outcome))
    {
      var req := inFlight[k];
      inFlight := inFlight[..k] + inFlight[k + 1..];
      var e := SettledEntry(req, outcome);
      Log(e.kind, e.message);
    }
  }

  /** From the defaults, a pass at "Hospital Junction" enters that signal:
      it turns green and, with requests disabled, issues nothing and leaves
      the "would POST" entry newest in the log; with requests enabled it
      issues the request for that signal. */
  lemma ArrivalAtHospital(dist: Distance, pos: Coordinate, triggered: set<string>, send: bool,
                          endpoint: string, ls: seq<TrafficLight>, log: seq<LogEntry>)
    requires DistanceLaws(dist) && ls == DefaultTrafficLights() && triggered == {}
    requires pos == ls[2].position
    ensures UpdatedLights(dist, pos, triggered, ls)[2].status == Green
    ensures !send ==> BatchRequests(dist, pos, triggered, send, endpoint, ls) == []
    ensures !send ==> var after := AddAll(log, BatchEntries(dist, pos, triggered, send, ls));
      |after| > 0 && after[0] == LogEntry(Info, WouldPost(ls[2].ipAddress))
    ensures send ==> PostRequest(endpoint, ls[2].id, ls[2].name) in BatchRequests(dist, pos, triggered, send, endpoint, ls)
  {
    InRangeAtSignal(dist, pos, ls[2]);
    assert ChangeAt(dist, pos, triggered, ls[2]) == Enter;
    EntryCounts(dist, pos, triggered, send, endpoint, ls);
    if send {
      EnteringSignalIsRequested(dist, pos, triggered, endpoint, ls, 2);
    } else {
      LastQuietEntryIsNewest(dist, pos, triggered, ls, log);
    }
  }

  /** A synthetic path that puts the ambulance on "Hospital Junction" at
      every step. */
  function ToHospital(step: nat): Coordinate
  {
    Coordinate(12.9740, 77.5930)
  }

  /** A fresh engine on the given path, started with requests disabled,
      after which the request switch is turned on. The timer keeps the
      switch as it was at Start. */
  method StartThenSwitchOn(dist: Distance, pathAt: nat -> Coordinate) returns (sim: Simulation)
    requires DistanceLaws(dist)
    ensures fresh(sim) && sim.Valid()
    ensures sim.dist == dist && sim.pathAt == pathAt && sim.step == 0
    ensures sim.isRunning && sim.intervalActive && sim.sendRequests && !sim.tickSendRequests
    ensures sim.espEndpoint == sim.tickEndpoint == "http://192.168.1.100"
    ensures sim.trafficLights == DefaultTrafficLights() && sim.triggered == {} && sim.inFlight == []
  {
    sim := new Simulation(dist, pathAt);
    sim.Start();
    sim.sendRequests := true;
  }

  /** Start with requests disabled, switch them on while running, and let
      one tick put the ambulance on "Hospital Junction". The timer still
      runs with the settings of Start, so the signal turns green, the
      "would POST" entry is logged, and no request is issued. */
  method StaleSettingsScenario(dist: Distance) returns (sim: Simulation)
    requires DistanceLaws(dist)
    ensures sim.sendRequests && sim.step == 1 && sim.inFlight == []
    ensures |sim.trafficLights| == 3 && sim.trafficLights[2].status == Green
    ensures |sim.logs| > 0 && sim.logs[0] == LogEntry(Info, WouldPost(DefaultTrafficLights()[2].ipAddress))
  {
    sim := StartThenSwitchOn(dist, ToHospital);
    var log0, lights0 := sim.logs, sim.trafficLights;
    sim.SimulateStep();
    ArrivalAtHospital(dist, sim.pathAt(sim.step), {}, false, sim.tickEndpoint, lights0, log0);
  }

  /** The same run with a tick that honours the switch requests
      "Hospital Junction" from the endpoint. */
  method CurrentSettingsScenario(dist: Distance) returns (sim: Simulation)
    requires DistanceLaws(dist)
    ensures sim.sendRequests && sim.step == 1
    ensures PostRequest("http://192.168.1.100", DefaultTrafficLights()[2].id, DefaultTrafficLights()[2].name)
      in sim.inFlight
  {
    sim := StartThenSwitchOn(dist, ToHospital);
    var log0, lights0 := sim.logs, sim.trafficLights;
    sim.SimulateStepCurrentSettings();
    ArrivalAtHospital(dist, sim.pathAt(sim.step), {}, true, sim.espEndpoint, lights0, log0);
  }
}
