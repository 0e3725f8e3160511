/** The loops against the transition system: every run of the updater's event loop over a trace is a run of the system,
    so what holds in every reachable state holds where the loop ends, and what the notifier's loop sends is what the
    system's updater receives. */
module UpdaterRuns {
  import opened Common
  import opened Aggregator
  import opened Attributes
  import opened Scanner
  import opened TopologyPolicy
  import opened Notifier
  import opened Updater
  import opened UpdaterSystem

  // ---- Traces the system covers ----

  /** Others delete the object, or edit attributes the updater does not own. */
  ghost predicate OthersMayDo(cfg: Config, stored: Option<Nrt>, changed: Option<Nrt>) {
    match changed
    case None => true
    case Some(o) =>
      && stored.Some? && o == stored.value.(attributes := o.attributes)
      && forall name :: name in Owned(cfg) ==> Lookup(o.attributes, name) == Lookup(stored.value.attributes, name)
  }

  /** An input as the notifier, the scanner and well-behaved others give it. */
  ghost predicate Expected(cfg: Config, stored: Option<Nrt>, input: Input) {
    match input
    case Event(info, a) =>
      && (if info.event == IntervalBased then cfg.ticks else cfg.watches)
      && (a.scan.Some? ==> ReportsFingerprint(cfg, a.scan.value))
    case StopSignal => true
    case Outside(changed) => OthersMayDo(cfg, stored, changed)
  }

  /** Whenever the loop is still running, the next input of the trace is as expected. */
  ghost predicate ExpectedTrace(cfg: Config, stored: Option<Nrt>, inputs: seq<Input>) {
    forall k, mid: LoopState :: 0 <= k < |inputs| && RunsTo(cfg.args, cfg.data, (stored, Running), inputs[..k], mid) && mid.1 == Running
      ==> Expected(cfg, mid.0, inputs[k])
  }

  // ---- What a trace asks of the updater ----

  function EventOfInput(input: Input): seq<Info> {
    if input.Event? then [input.info] else []
  }

  function ScanOfInput(input: Input): seq<ScanResponse> {
    if input.Event? && input.answers.scan.Some? then [input.answers.scan.value] else []
  }

  function Sends(t: Trigger): seq<Info> {
    [InfoOf(t)]
  }

  /** The notifications of these triggers. */
  function Infos(ts: seq<Trigger>): seq<Info> {
    FlatMap(Sends, ts)
  }

  ghost function StartOf(cfg: Config, stored: Option<Nrt>): State {
    State(None, 0, Waiting, stored, [], [], [], [],
          match stored case Some(o) => Foreign(o.attributes, Owned(cfg)) case None => [])
  }

  /** The system is where the loop is: same stored object, same status, nothing pending; and it has handled the events
      of the trace, all of them while the loop is running. */
  ghost predicate Follows(s: State, inputs: seq<Input>, end: LoopState) {
    && s.stored == end.0 && s.worker == (if end.1 == Running then Waiting else Ended(end.1))
    && s.pending == None && s.stopRequests == 0
    && Infos(s.taken) <= FlatMap(EventOfInput, inputs) && s.scans <= FlatMap(ScanOfInput, inputs)
    && (end.1 == Running ==> Infos(s.taken) == FlatMap(EventOfInput, inputs) && s.scans == FlatMap(ScanOfInput, inputs))
  }

  /** A trigger that makes the notifier send this. */
  function TriggerFor(info: Info): (t: Trigger)
    ensures InfoOf(t) == info
  {
    match info
    case Info(IntervalBased) => Tick
    case Info(FSUpdate) => File("/" + CPU_MANAGER_STATE)
  }

  lemma {:induction false} TriggerRelevant(info: Info)
    ensures Relevant(TriggerFor(info))
  {
    assert '/' !in CPU_MANAGER_STATE;
    BaseOfFile("", CPU_MANAGER_STATE, 0);
    assert "" + "/" + CPU_MANAGER_STATE + seq(0, _ => '/') == "/" + CPU_MANAGER_STATE;
  }

  /** One event of the loop is an arrival, a hand-off and a turn of work. */
  lemma {:induction false} EventRound(cfg: Config, start: State, steps: seq<Step>, s: State, info: Info, a: Answers,
                                      zones: seq<Zone>)
    returns (longer: seq<Step>, t: State)
    requires Reaches(cfg, start, steps, s) && s.pending == None && s.worker == Waiting
    requires Expected(cfg, s.stored, Event(info, a)) && ZonesFor(cfg.data, a.scan, zones)
    ensures Reaches(cfg, start, longer, t) && t.pending == None && t.stopRequests == s.stopRequests
    ensures
      var (stored, status) := Handle(cfg.args, cfg.data, s.stored, info.event, a, zones);
      t.stored == stored && t.worker == if status == Running then Waiting else Ended(status)
    ensures t.taken == s.taken + [TriggerFor(info)]
    ensures t.scans == s.scans + ScanOfInput(Event(info, a))
  {
    hide Reaches, ZonesFor, ReportsFingerprint, Handle, RecordOf, Relevant;
    TriggerRelevant(info);
    var mid;
    longer, mid := ReachesSnoc(cfg, start, steps, s, Arrive(TriggerFor(info)));
    longer, mid := ReachesSnoc(cfg, start, longer, mid, HandOff);
    longer, t := ReachesSnoc(cfg, start, longer, mid, Work(a, zones));
  }

  /** One input, taken while the loop is running. */
  lemma {:induction false} FollowStep(cfg: Config, start: State, steps: seq<Step>, s: State, inputs: seq<Input>,
                                      mid: LoopState, input: Input, end: LoopState)
    returns (longer: seq<Step>, t: State)
    requires Reaches(cfg, start, steps, s) && Follows(s, inputs, mid) && mid.1 == Running
    requires Steps(cfg.args, cfg.data, mid, input, end) && Expected(cfg, mid.0, input)
    ensures Reaches(cfg, start, longer, t) && Follows(t, inputs + [input], end)
  {
    hide Reaches, ZonesFor, ReportsFingerprint, Handle, RecordOf, FlatMap, Foreign;
    FlatMapSnoc(EventOfInput, inputs, input);
    FlatMapSnoc(ScanOfInput, inputs, input);
    match input
    case Event(info, a) =>
      var zones :| ZonesFor(cfg.data, a.scan, zones) && end == Handle(cfg.args, cfg.data, mid.0, info.event, a, zones);
      longer, t := EventRound(cfg, start, steps, s, info, a, zones);
      FlatMapSnoc(Sends, s.taken, TriggerFor(info));
    case StopSignal =>
      longer, t := ReachesSnoc(cfg, start, steps, s, Stop);
      longer, t := ReachesSnoc(cfg, start, longer, t, TakeStop);
    case Outside(changed) =>
      if changed.Some? {
        longer, t := ReachesSnoc(cfg, start, steps, s, Edit(changed.value.attributes));
      } else if s.stored.Some? {
        longer, t := ReachesSnoc(cfg, start, steps, s, Delete);
      } else {
        longer, t := steps, s;
      }
  }

  lemma {:induction false} TracePrefix(cfg: Config, stored: Option<Nrt>, inputs: seq<Input>)
    requires inputs != [] && ExpectedTrace(cfg, stored, inputs)
    ensures ExpectedTrace(cfg, stored, inputs[..|inputs| - 1])
  {
    hide RunsTo, Expected;
    var front := inputs[..|inputs| - 1];
    assert forall k :: 0 <= k < |front| ==> front[..k] == inputs[..k] && front[k] == inputs[k];
  }

  /** Every state the event loop can end in is a reachable state of the system. */
  lemma {:induction false} RunIsReachable(cfg: Config, stored: Option<Nrt>, inputs: seq<Input>, end: LoopState)
    returns (steps: seq<Step>, s: State)
    requires RunsTo(cfg.args, cfg.data, (stored, Running), inputs, end) && ExpectedTrace(cfg, stored, inputs)
    ensures Init(cfg, StartOf(cfg, stored)) && Reaches(cfg, StartOf(cfg, stored), steps, s) && Follows(s, inputs, end)
    decreases |inputs|
  {
    hide Reaches, Follows, Steps, Expected;
    var start := StartOf(cfg, stored);
    if inputs == [] {
      steps, s := [], start;
      ReachesNone(cfg, start);
      FollowsStart(cfg, stored);
    } else {
      var front, last := inputs[..|inputs| - 1], inputs[|inputs| - 1];
      assert inputs == front + [last];
      var mid :| RunsTo(cfg.args, cfg.data, (stored, Running), front, mid) && Steps(cfg.args, cfg.data, mid, last, end);
      TracePrefix(cfg, stored, inputs);
      steps, s := RunIsReachable(cfg, stored, front, mid);
      if mid.1 == Running {
        steps, s := FollowStep(cfg, start, steps, s, front, mid, last, end);
      } else {
        FollowsDone(s, front, mid, last, end, cfg);
      }
    }
  }

  lemma {:induction false} FollowsStart(cfg: Config, stored: Option<Nrt>)
    ensures Follows(StartOf(cfg, stored), [], (stored, Running))
  {
  }

  lemma {:induction false} FollowsDone(s: State, inputs: seq<Input>, mid: LoopState, input: Input, end: LoopState, cfg: Config)
    requires Follows(s, inputs, mid) && mid.1 != Running && Steps(cfg.args, cfg.data, mid, input, end)
    ensures Follows(s, inputs + [input], end)
  {
    hide FlatMap, Handle;
    FlatMapSnoc(EventOfInput, inputs, input);
    FlatMapSnoc(ScanOfInput, inputs, input);
  }

  // ---- What the loops' runs show ----

  /** Wherever the event loop ends: with Oneshot no running loop has seen a successful scan; and while it runs, the
      stored object shows the last successful scan of the trace, unless publishing is off. */
  lemma {:induction false} RunShowsLastScan(cfg: Config, stored: Option<Nrt>, inputs: seq<Input>, end: LoopState)
    requires RunsTo(cfg.args, cfg.data, (stored, Running), inputs, end) && ExpectedTrace(cfg, stored, inputs) && OwnFingerprint(cfg)
    requires end.1 == Running && FlatMap(ScanOfInput, inputs) != []
    ensures !cfg.args.oneshot
    ensures !cfg.args.noPublish && end.0.Some? ==>
      var scans := FlatMap(ScanOfInput, inputs);
      var latest := scans[|scans| - 1];
      && Renders(end.0.value.zones, cfg.data, cfg.data.Final(latest.pods))
      && (latest.attributes != [] ==> Lookup(end.0.value.attributes, cfg.fingerprint) == Some(latest.attributes[0].value))
  {
    hide RunsTo, ExpectedTrace, Init, Reaches, FlatMap, Renders, NodeData.Final, Lookup, StoredInv;
    var steps, s := RunIsReachable(cfg, stored, inputs, end);
    ReachableInv(cfg, StartOf(cfg, stored), steps, s);
    if !cfg.args.noPublish && end.0.Some? {
      assert |s.log| == |LogScans(s.log)| && LogScans(s.log)[|s.log| - 1] == s.log[|s.log| - 1].scan;
      StoredShowsLatestScan(cfg, StartOf(cfg, stored), steps, s);
    }
  }

  function Arrival(step: Step): seq<Trigger> {
    if step.Arrive? then [step.trigger] else []
  }

  /** The triggers the notifier received, relevant or not. */
  function Arrivals(steps: seq<Step>): seq<Trigger> {
    FlatMap(Arrival, steps)
  }

  lemma {:induction false} ArrivedAreSent(cfg: Config, start: State, steps: seq<Step>, s: State)
    requires Init(cfg, start) && Reaches(cfg, start, steps, s)
    ensures Infos(s.arrived) == FlatMap(Sent, Arrivals(steps))
  {
    hide FlatMap, Enabled, Relevant, Handle, RecordOf, Foreign;
    if steps == [] {
      FlatMapNone(Sends, [], s.arrived);
      FlatMapNone(Arrival, [], steps);
      FlatMapNone(Sent, [], []);
      assert s.arrived[..0] == [] && steps[..0] == [];
    } else {
      var front, last := steps[..|steps| - 1], steps[|steps| - 1];
      assert steps == front + [last];
      var mid :| Reaches(cfg, start, front, mid) && Enabled(cfg, mid, last) && s == Next(cfg, mid, last);
      ArrivedAreSent(cfg, start, front, mid);
      FlatMapSnoc(Arrival, front, last);
      assert Arrivals(front) + [] == Arrivals(front) && Infos(mid.arrived) + [] == Infos(mid.arrived);
      if last.Arrive? {
        FlatMapSnoc(Sent, Arrivals(front), last.trigger);
        FlatMapSnoc(Sends, mid.arrived, last.trigger);
      }
    }
  }

  /** Over every run: what the notifier's loop sends for the triggers it received is what the updater has taken, then
      what is still being sent. */
  lemma {:induction false} SentAreTaken(cfg: Config, start: State, steps: seq<Step>, s: State)
    requires Init(cfg, start) && Reaches(cfg, start, steps, s)
    ensures FlatMap(Sent, Arrivals(steps)) == Infos(s.taken) + Infos(PendingList(s))
  {
    hide FlatMap, Init, Reaches;
    ReachableInv(cfg, start, steps, s);
    ArrivedAreSent(cfg, start, steps, s);
    FlatMapAppend(Sends, s.taken, PendingList(s));
  }

  // ---- When the event loop ends ----

  /** The status the loop ends with on an input, None when it goes on. */
  ghost function EndsOn(args: Args, d: NodeData, stored: Option<Nrt>, input: Input): Option<Status> {
    match input
    case Event(info, a) => EndsOnEvent(args, d, stored, info.event, a)
    case StopSignal => Some(Returned(true))
    case Outside(_) => None
  }

  lemma {:induction false} StepEnds(args: Args, d: NodeData, stored: Option<Nrt>, input: Input, after: LoopState)
    requires Steps(args, d, (stored, Running), input, after)
    ensures after.1 == match EndsOn(args, d, stored, input) case None => Running case Some(status) => status
  {
    hide Handle, EndsOnEvent, ZonesFor;
    if input.Event? {
      var zones :| ZonesFor(d, input.answers.scan, zones)
        && after == Handle(args, d, stored, input.info.event, input.answers, zones);
      HandleEnds(args, d, stored, input.info.event, input.answers, zones);
    }
  }

  /** The k-th input is taken while the loop is running and ends it with this status. */
  ghost predicate EndedBy(args: Args, d: NodeData, start: LoopState, inputs: seq<Input>, k: nat, status: Status)
    requires k < |inputs|
  {
    exists mid: LoopState :: RunsTo(args, d, start, inputs[..k], mid) && mid.1 == Running && EndsOn(args, d, mid.0, inputs[k]) == Some(status)
  }

  /** The event loop has ended exactly on some input that ends it, and with the status that input gives. */
  lemma {:induction false} RunEndsOn(args: Args, d: NodeData, stored: Option<Nrt>, inputs: seq<Input>, end: LoopState) returns (k: nat)
    requires RunsTo(args, d, (stored, Running), inputs, end) && end.1 != Running
    ensures k < |inputs| && EndedBy(args, d, (stored, Running), inputs, k, end.1)
    decreases |inputs|
  {
    hide Steps, EndsOn;
    var start := (stored, Running);
    var front, last := inputs[..|inputs| - 1], inputs[|inputs| - 1];
    var mid :| RunsTo(args, d, start, front, mid) && Steps(args, d, mid, last, end);
    if mid.1 == Running {
      k := |front|;
      StepEnds(args, d, mid.0, last, end);
      assert inputs[..k] == front;
    } else {
      StaysEnded(args, d, mid, last, end);
      k := RunEndsOn(args, d, stored, front, mid);
      assert front[..k] == inputs[..k] && front[k] == inputs[k];
    }
  }

  lemma {:induction false} StaysEnded(args: Args, d: NodeData, mid: LoopState, input: Input, end: LoopState)
    requires mid.1 != Running && Steps(args, d, mid, input, end)
    ensures end == mid
  {
  }

  /** An event on which the loop may return an error: it publishes a scan, and some answer fails. */
  ghost predicate FailedAnswer(args: Args, d: NodeData, input: Input) {
    && input.Event? && input.answers.scan.Some? && !d.Panics(input.answers.scan.value.pods) && !args.noPublish
    && (!input.answers.clientOk || !input.answers.getOk || !input.answers.writeOk || input.answers.config.None?)
  }

  /** Over every trace: the loop returns an error only on an event with a failed answer, crashes only on a scan that makes
      the replay crash, and returns otherwise only on a stop signal or, with Oneshot, on an event with a scan. */
  lemma {:induction false} RunEndsOnlyFor(args: Args, d: NodeData, stored: Option<Nrt>, inputs: seq<Input>, end: LoopState)
    requires RunsTo(args, d, (stored, Running), inputs, end)
    ensures end.1 == Returned(false) ==> exists k :: 0 <= k < |inputs| && FailedAnswer(args, d, inputs[k])
    ensures end.1 == Crashed
      ==> exists k :: 0 <= k < |inputs| && inputs[k].Event? && inputs[k].answers.scan.Some? && d.Panics(inputs[k].answers.scan.value.pods)
    ensures end.1 == Returned(true)
      ==> exists k :: 0 <= k < |inputs| && (inputs[k].StopSignal? || (args.oneshot && inputs[k].Event? && inputs[k].answers.scan.Some?))
  {
    hide RunsTo, NodeData.Panics;
    if end.1 != Running {
      var k := RunEndsOn(args, d, stored, inputs, end);
      var mid: LoopState :| RunsTo(args, d, (stored, Running), inputs[..k], mid) && mid.1 == Running
        && EndsOn(args, d, mid.0, inputs[k]) == Some(end.1);
      assert end.1 == Returned(false) ==> FailedAnswer(args, d, inputs[k]);
    }
  }

  /** An input that cannot end the loop: a failed scan, a change by others, or, without Oneshot, an event that is handled
      with every answer good. */
  ghost predicate Harmless(args: Args, d: NodeData, input: Input) {
    match input
    case Event(_, a) =>
      a.scan.Some? ==> && !d.Panics(a.scan.value.pods) && !args.oneshot
                       && (args.noPublish || (a.clientOk && a.getOk && a.writeOk && a.config.Some?))
    case StopSignal => false
    case Outside(_) => true
  }

  /** Over every trace of harmless inputs the loop keeps running. */
  lemma {:induction false} RunKeepsOn(args: Args, d: NodeData, stored: Option<Nrt>, inputs: seq<Input>, end: LoopState)
    requires RunsTo(args, d, (stored, Running), inputs, end) && forall k :: 0 <= k < |inputs| ==> Harmless(args, d, inputs[k])
    ensures end.1 == Running
    decreases |inputs|
  {
    hide Steps, Harmless;
    if inputs != [] {
      var front, last := inputs[..|inputs| - 1], inputs[|inputs| - 1];
      var mid :| RunsTo(args, d, (stored, Running), front, mid) && Steps(args, d, mid, last, end);
      RunKeepsOn(args, d, stored, front, mid);
      HarmlessGoesOn(args, d, mid.0, last);
      StepEnds(args, d, mid.0, last, end);
    }
  }

  lemma {:induction false} HarmlessGoesOn(args: Args, d: NodeData, stored: Option<Nrt>, input: Input)
    requires Harmless(args, d, input)
    ensures EndsOn(args, d, stored, input) == None
  {
    hide NodeData.Panics;
  }

  /** A state-file event on an existing object needs no kubelet config: with the other answers good the loop goes on, with
      the zones of the scan and the policies as they were. */
  lemma {:induction false} FileEventUpdates(args: Args, d: NodeData, o: Nrt, a: Answers, after: LoopState)
    requires Steps(args, d, (Some(o), Running), Event(Info(FSUpdate), a), after)
    requires a.scan.Some? && !d.Panics(a.scan.value.pods) && args == Args(false, false)
    requires a.clientOk && a.getOk && a.writeOk
    ensures after.1 == Running && after.0.Some? && after.0.value.policies == o.policies
    ensures Renders(after.0.value.zones, d, d.Final(a.scan.value.pods))
  {
    hide NodeData.Panics, Renders, Publish, NodeData.Final;
    var zones :| ZonesFor(d, a.scan, zones) && after == Handle(args, d, Some(o), FSUpdate, a, zones);
    PublishExactly(Some(o), zones, a.scan.value, false, a);
  }

  /** A tick reads the kubelet config: with every answer good the loop goes on, and the object shows the config. */
  lemma {:induction false} TickReadsConfig(cfg: Config, stored: Option<Nrt>, a: Answers, after: LoopState)
    requires Steps(cfg.args, cfg.data, (stored, Running), Event(Info(IntervalBased), a), after)
    requires OwnFingerprint(cfg) && cfg.args == Args(false, false)
    requires a.scan.Some? && !cfg.data.Panics(a.scan.value.pods) && ReportsFingerprint(cfg, a.scan.value)
    requires a.clientOk && a.getOk && a.writeOk && a.config.Some?
    ensures after.1 == Running && after.0.Some?
    ensures after.0.value.policies == [DetectTopologyPolicy(a.config.value.policy, a.config.value.scope)]
    ensures Lookup(after.0.value.attributes, "topologyManagerPolicy") == Some(a.config.value.policy)
    ensures Lookup(after.0.value.attributes, "topologyManagerScope") == Some(a.config.value.scope)
  {
    hide NodeData.Panics, Renders, NodeData.Final, Lookup, ReportsFingerprint, UpsertAll, DetectTopologyPolicy;
    var zones :| ZonesFor(cfg.data, a.scan, zones) && after == Handle(cfg.args, cfg.data, stored, IntervalBased, a, zones);
    PublishExactly(stored, zones, a.scan.value, true, a);
    WrittenLookup(cfg, stored, zones, a.scan.value, true, a, "topologyManagerPolicy");
    WrittenLookup(cfg, stored, zones, a.scan.value, true, a, "topologyManagerScope");
    assert |"topologyManagerPolicy"| != |"topologyManagerScope"|;
  }
}
