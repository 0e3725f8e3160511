/** The notifier, the updater and the API server as one transition system: ticks and file events, the unbuffered
    hand-off, scans and publications that may fail, stop requests, and changes of the stored object by others. */
module UpdaterSystem {
  import opened Common
  import opened PodResourcesApi
  import opened Indexes
  import opened Aggregator
  import opened Attributes
  import opened Scanner
  import opened TopologyPolicy
  import opened Notifier
  import opened Updater

  /** ticks and watches tell whether the notifier has a timer and a file watcher; fingerprint is the attribute name a
      scan reports its fingerprint under. */
  datatype Config = Config(args: Args, data: NodeData, ticks: bool, watches: bool, fingerprint: string)

  datatype Worker = Waiting | Working(trigger: Trigger) | Ended(status: Status)

  /** One successful write: the scan it published, the config it read, and whether it created the object. */
  datatype Record = Record(scan: ScanResponse, config: Option<KubeletConfig>, created: bool)

  /** The first four fields are the state of the program and of the server. The others are history: the relevant
      triggers the notifier received and those the updater took, the successful scans, the writes, and the foreign
      attributes as others last left them. */
  datatype State = State(
    pending: Option<Trigger>,
    stopRequests: nat,
    worker: Worker,
    stored: Option<Nrt>,
    arrived: seq<Trigger>,
    taken: seq<Trigger>,
    scans: seq<ScanResponse>,
    log: seq<Record>,
    foreign: seq<AttributeInfo>)

  datatype Step =
    | Arrive(trigger: Trigger)
    | HandOff
    | Work(answers: Answers, zones: seq<Zone>)
    | Stop
    | TakeStop
    | Delete
    | Edit(attributes: seq<AttributeInfo>)

  function Owned(cfg: Config): set<string> {
    {POLICY_ATTRIBUTE, SCOPE_ATTRIBUTE, cfg.fingerprint}
  }

  /** A scan reports at most one attribute, the fingerprint. */
  predicate ReportsFingerprint(cfg: Config, scan: ScanResponse) {
    scan.attributes == [] || (|scan.attributes| == 1 && scan.attributes[0].name == cfg.fingerprint)
  }

  ghost predicate Init(cfg: Config, s: State) {
    && s.pending == None && s.stopRequests == 0 && s.worker == Waiting
    && s.arrived == [] && s.taken == [] && s.scans == [] && s.log == []
    && (s.stored.Some? ==> s.foreign == Foreign(s.stored.value.attributes, Owned(cfg)))
  }

  ghost predicate Enabled(cfg: Config, s: State, step: Step) {
    match step
    // A notifier blocked in a send receives nothing.
    case Arrive(t) => s.pending == None && (if t.Tick? then cfg.ticks else cfg.watches)
    case HandOff => s.pending.Some? && s.worker == Waiting
    case Work(a, zones) =>
      s.worker.Working? && ZonesFor(cfg.data, a.scan, zones) && (a.scan.Some? ==> ReportsFingerprint(cfg, a.scan.value))
    case Stop => true
    case TakeStop => s.stopRequests > 0 && s.worker == Waiting
    case Delete => s.stored.Some?
    // Others leave the updater's own attributes, zones and policies alone.
    case Edit(attributes) =>
      s.stored.Some? && forall name :: name in Owned(cfg) ==> Lookup(attributes, name) == Lookup(s.stored.value.attributes, name)
  }

  function EventOf(t: Trigger): EventType {
    InfoOf(t).event
  }

  /** The record of a publication that wrote, None when nothing was written. */
  ghost function RecordOf(cfg: Config, s: State, a: Answers, zones: seq<Zone>): Option<Record>
    requires s.worker.Working?
  {
    var interval := EventOf(s.worker.trigger) == IntervalBased;
    if a.scan.None? || cfg.data.Panics(a.scan.value.pods) || cfg.args.noPublish then None
    else if Written(s.stored, zones, a.scan.value, interval, a).None? || !a.writeOk then None
    else Some(Record(a.scan.value, if s.stored.None? || interval then a.config else None, s.stored.None?))
  }

  ghost function Next(cfg: Config, s: State, step: Step): State
    requires Enabled(cfg, s, step)
  {
    match step
    case Arrive(t) => if Relevant(t) then s.(pending := Some(t), arrived := s.arrived + [t]) else s
    case HandOff => s.(pending := None, worker := Working(s.pending.value), taken := s.taken + [s.pending.value])
    case Work(a, zones) =>
      var (stored, status) := Handle(cfg.args, cfg.data, s.stored, EventOf(s.worker.trigger), a, zones);
      var record := RecordOf(cfg, s, a, zones);
      s.(stored := stored,
         worker := if status == Running then Waiting else Ended(status),
         scans := if a.scan.Some? then s.scans + [a.scan.value] else s.scans,
         log := if record.Some? then s.log + [record.value] else s.log,
         foreign := if record.Some? && record.value.created then [] else s.foreign)
    case Stop => s.(stopRequests := if s.stopRequests < 1 then s.stopRequests + 1 else s.stopRequests)
    case TakeStop => s.(stopRequests := s.stopRequests - 1, worker := Ended(Returned(true)))
    case Delete => s.(stored := None)
    case Edit(attributes) =>
      s.(stored := Some(s.stored.value.(attributes := attributes)), foreign := Foreign(attributes, Owned(cfg)))
  }

  /** s can be reached from start by these steps. */
  ghost predicate Reaches(cfg: Config, start: State, steps: seq<Step>, s: State) {
    if steps == [] then s == start
    else
      var front, last := steps[..|steps| - 1], steps[|steps| - 1];
      exists mid :: Reaches(cfg, start, front, mid) && Enabled(cfg, mid, last) && s == Next(cfg, mid, last)
  }

  // ---- What every reachable state satisfies ----

  function PendingList(s: State): seq<Trigger> {
    match s.pending case Some(t) => [t] case None => []
  }

  /** Hand-off: nothing received is lost, duplicated or reordered, and at most one stop request is pending. */
  ghost predicate HandOffInv(s: State) {
    && s.arrived == s.taken + PendingList(s)
    && (forall i :: 0 <= i < |s.arrived| ==> Relevant(s.arrived[i]))
    && s.stopRequests <= 1
    && (s.worker.Working? ==> s.taken != [] && s.taken[|s.taken| - 1] == s.worker.trigger)
  }

  function LogScans(log: seq<Record>): seq<ScanResponse> {
    seq(|log|, i requires 0 <= i < |log| => log[i].scan)
  }

  /** Flow: while the updater runs, every successful scan has been published exactly once and in order; only the last
      one may be missing once it has ended. */
  ghost predicate FlowInv(cfg: Config, s: State) {
    && |s.scans| + (if s.worker.Working? then 1 else 0) <= |s.taken|
    && (if cfg.args.noPublish then s.log == []
        else LogScans(s.log) == s.scans
             || (s.worker.Ended? && s.scans != [] && LogScans(s.log) == s.scans[..|s.scans| - 1]))
    && (cfg.args.oneshot ==> |s.scans| <= 1 && (s.scans != [] ==> s.worker.Ended?))
  }

  function LastConfig(log: seq<Record>): Option<KubeletConfig> {
    if log == [] then None
    else if log[|log| - 1].config.Some? then log[|log| - 1].config
    else LastConfig(log[..|log| - 1])
  }

  /** The fingerprint of the latest published scan that had one, looking back to the latest creation of the object. */
  function LastSign(log: seq<Record>): Option<string> {
    if log == [] then None
    else
      var r := log[|log| - 1];
      if r.scan.attributes != [] then Some(r.scan.attributes[0].value)
      else if r.created then None
      else LastSign(log[..|log| - 1])
  }

  /** The fingerprint of the latest published scan that had one. */
  function LastSigned(log: seq<Record>): Option<string> {
    if log == [] then None
    else if log[|log| - 1].scan.attributes != [] then Some(log[|log| - 1].scan.attributes[0].value)
    else LastSigned(log[..|log| - 1])
  }

  predicate Unsigned(log: seq<Record>, k: nat)
    requires k <= |log|
  {
    forall i :: k <= i < |log| ==> log[i].scan.attributes == []
  }

  /** The object was created again by a scan without fingerprint, and no scan published since then had one. */
  ghost predicate RecreatedUnsigned(log: seq<Record>) {
    exists k :: 0 <= k < |log| && log[k].created && Unsigned(log, k)
  }

  ghost predicate EverCreated(log: seq<Record>) {
    exists i :: 0 <= i < |log| && log[i].created
  }

  ghost predicate ShowsZones(cfg: Config, o: Nrt, log: seq<Record>) {
    log != [] ==> Renders(o.zones, cfg.data, cfg.data.Final(log[|log| - 1].scan.pods))
  }

  ghost predicate ShowsConfig(o: Nrt, c: KubeletConfig) {
    && Lookup(o.attributes, POLICY_ATTRIBUTE) == Some(c.policy)
    && Lookup(o.attributes, SCOPE_ATTRIBUTE) == Some(c.scope)
    && o.policies == [DetectTopologyPolicy(c.policy, c.scope)]
  }

  /** Stored object: the zones of the latest published scan, the last config read, the latest fingerprint, and the
      foreign attributes just as others left them. */
  ghost predicate StoredInv(cfg: Config, s: State) {
    s.stored.Some? ==>
      var o := s.stored.value;
      && ShowsZones(cfg, o, s.log)
      && (LastConfig(s.log).Some? ==> ShowsConfig(o, LastConfig(s.log).value))
      && (LastSign(s.log).Some? || EverCreated(s.log) ==> Lookup(o.attributes, cfg.fingerprint) == LastSign(s.log))
      && Foreign(o.attributes, Owned(cfg)) == s.foreign
  }

  ghost predicate OwnFingerprint(cfg: Config) {
    cfg.fingerprint !in {POLICY_ATTRIBUTE, SCOPE_ATTRIBUTE}
  }

  lemma {:induction false} HandOffStep(cfg: Config, s: State, step: Step)
    requires HandOffInv(s) && Enabled(cfg, s, step)
    ensures HandOffInv(Next(cfg, s, step))
  {
    hide Handle, Relevant;
  }

  /** What one turn of work does to the stored object, the log and the status. */
  lemma {:induction false} WorkOutcome(cfg: Config, s: State, a: Answers, zones: seq<Zone>)
    requires Enabled(cfg, s, Work(a, zones))
    ensures
      var t := Next(cfg, s, Work(a, zones));
      var record := RecordOf(cfg, s, a, zones);
      && (record.None? ==> t.stored == s.stored)
      && (record.Some? ==> a.scan.Some?)
      && (record.None? && a.scan.Some? && !cfg.args.noPublish ==> t.worker.Ended?)
      && (record.Some? ==> t.stored == Written(s.stored, zones, a.scan.value, EventOf(s.worker.trigger) == IntervalBased, a)
                           && !cfg.args.noPublish && record.value.scan == a.scan.value)
      && (a.scan.None? ==> t.worker == Waiting)
      && (a.scan.Some? && cfg.args.oneshot ==> t.worker.Ended?)
  {
    hide Written, NodeData.Panics, ZonesFor, ReportsFingerprint;
  }

  lemma {:induction false} FlowWork(cfg: Config, s: State, a: Answers, zones: seq<Zone>)
    requires HandOffInv(s) && FlowInv(cfg, s) && Enabled(cfg, s, Work(a, zones))
    ensures FlowInv(cfg, Next(cfg, s, Work(a, zones)))
  {
    hide Handle, RecordOf, HandOffInv, ZonesFor, ReportsFingerprint, Relevant;
    WorkOutcome(cfg, s, a, zones);
    var record := RecordOf(cfg, s, a, zones);
    if record.Some? {
      assert LogScans(s.log + [record.value]) == LogScans(s.log) + [record.value.scan];
    }
    if a.scan.Some? {
      assert (s.scans + [a.scan.value])[..|s.scans|] == s.scans;
    }
  }

  lemma {:induction false} FlowStep(cfg: Config, s: State, step: Step)
    requires HandOffInv(s) && FlowInv(cfg, s) && Enabled(cfg, s, step)
    ensures FlowInv(cfg, Next(cfg, s, step))
  {
    hide Handle, RecordOf, HandOffInv, Relevant, LogScans, Foreign, Lookup;
    if step.Work? {
      FlowWork(cfg, s, step.answers, step.zones);
    }
  }

  /** The attributes a scan reports, whatever the pods: what Work relies on. */
  lemma {:induction false} ScansReport(cfg: Config, scanner: PodResourcesScanner, raws: seq<RawPod>,
                                       fingerprint: seq<RawPod> -> Option<string>, pods: seq<PodResources>)
    requires scanner.fingerprintName == cfg.fingerprint
    ensures ReportsFingerprint(cfg, ScanResponse(pods, scanner.AttributesOf(raws, fingerprint)))
  {
  }

  // ---- The stored object ----

  lemma {:induction false} ConfigValues(c: KubeletConfig, name: string)
    ensures LastValue(TopologyAttributes(c), name)
         == if name == SCOPE_ATTRIBUTE then Some(c.scope) else if name == POLICY_ATTRIBUTE then Some(c.policy) else None
  {
    var us := TopologyAttributes(c);
    assert |POLICY_ATTRIBUTE| != |SCOPE_ATTRIBUTE|;
    assert us[..1] == [us[0]] && [us[0]][..0] == [];
    assert LastValue([us[0]], name) == if name == POLICY_ATTRIBUTE then Some(c.policy) else None;
  }

  lemma {:induction false} ScanValues(cfg: Config, scan: ScanResponse, name: string)
    requires ReportsFingerprint(cfg, scan)
    ensures LastValue(scan.attributes, name)
         == if scan.attributes != [] && name == cfg.fingerprint then Some(scan.attributes[0].value) else None
  {
  }

  /** One attribute of a written object: from the scan, else from the config read, else what was there. */
  lemma {:induction false} WrittenLookup(cfg: Config, stored: Option<Nrt>, zones: seq<Zone>, scan: ScanResponse,
                                         interval: bool, a: Answers, name: string)
    requires ReportsFingerprint(cfg, scan) && Written(stored, zones, scan, interval, a).Some?
    ensures
      var w := Written(stored, zones, scan, interval, a).value;
      var earlier := match stored case Some(o) => Lookup(o.attributes, name) case None => None;
      Lookup(w.attributes, name)
        == if scan.attributes != [] && name == cfg.fingerprint then Some(scan.attributes[0].value)
           else if (stored.None? || interval) && name == SCOPE_ATTRIBUTE then Some(a.config.value.scope)
           else if (stored.None? || interval) && name == POLICY_ATTRIBUTE then Some(a.config.value.policy)
           else earlier
  {
    hide UpsertAll, LastValue, Lookup, ReportsFingerprint;
    var attributes := match stored case Some(o) => o.attributes case None => [];
    LookupNone(name);
    ScanValues(cfg, scan, name);
    if stored.None? || interval {
      var c := a.config.value;
      ConfigValues(c, name);
      UpsertAllLookup(attributes, TopologyAttributes(c), name);
      UpsertAllLookup(UpsertAll(attributes, TopologyAttributes(c)), scan.attributes, name);
    } else {
      UpsertAllLookup(attributes, scan.attributes, name);
    }
  }

  lemma {:induction false} LookupNone(name: string)
    ensures Lookup([], name) == None
  {
  }

  /** The object a first publication creates: the zones, the policies and both attributes of the config, and then the
      fingerprint of the scan. */
  lemma {:induction false} CreatedExactly(cfg: Config, zones: seq<Zone>, scan: ScanResponse, readConfig: bool, a: Answers, c: KubeletConfig)
    requires OwnFingerprint(cfg) && ReportsFingerprint(cfg, scan)
    requires a.clientOk && a.getOk && a.writeOk && a.config == Some(c)
    ensures Publish(None, zones, scan, readConfig, a)
         == (Some(Nrt([DetectTopologyPolicy(c.policy, c.scope)], zones,
                      [AttributeInfo("topologyManagerPolicy", c.policy), AttributeInfo("topologyManagerScope", c.scope)] + scan.attributes)),
             true)
  {
    hide DetectTopologyPolicy, UpsertAll, Upsert;
    var policy, scope := AttributeInfo(POLICY_ATTRIBUTE, c.policy), AttributeInfo(SCOPE_ATTRIBUTE, c.scope);
    assert |POLICY_ATTRIBUTE| != |SCOPE_ATTRIBUTE|;
    UpsertNew([], policy);
    UpsertNew([policy], scope);
    UpsertTwo([], policy, scope);
    assert [] + [policy] == [policy] && [policy] + [scope] == [policy, scope];
    assert UpsertAll([], TopologyAttributes(c)) == [policy, scope];
    if scan.attributes == [] {
      UpsertOne([policy, scope], policy);
      assert [policy, scope] + scan.attributes == [policy, scope];
    } else {
      UpsertNew([policy, scope], scan.attributes[0]);
      UpsertOne([policy, scope], scan.attributes[0]);
      assert scan.attributes == [scan.attributes[0]];
    }
  }

  lemma {:induction false} UpsertNew(s: seq<AttributeInfo>, a: AttributeInfo)
    requires forall i :: 0 <= i < |s| ==> s[i].name != a.name
    ensures Upsert(s, a) == s + [a]
  {
  }

  lemma {:induction false} UpsertOne(s: seq<AttributeInfo>, a: AttributeInfo)
    ensures UpsertAll(s, []) == s && UpsertAll(s, [a]) == Upsert(s, a)
  {
    assert [a][..0] == [];
  }

  lemma {:induction false} UpsertTwo(s: seq<AttributeInfo>, a: AttributeInfo, b: AttributeInfo)
    ensures UpsertAll(s, [a, b]) == Upsert(Upsert(s, a), b)
  {
    UpsertOne(s, a);
    assert [a, b][..1] == [a];
  }

  lemma {:induction false} WrittenForeign(cfg: Config, stored: Option<Nrt>, zones: seq<Zone>, scan: ScanResponse,
                                          interval: bool, a: Answers)
    requires ReportsFingerprint(cfg, scan) && Written(stored, zones, scan, interval, a).Some?
    ensures
      Foreign(Written(stored, zones, scan, interval, a).value.attributes, Owned(cfg))
        == match stored case Some(o) => Foreign(o.attributes, Owned(cfg)) case None => []
  {
    hide UpsertAll;
    var attributes := match stored case Some(o) => o.attributes case None => [];
    if stored.None? || interval {
      var c := a.config.value;
      ForeignUntouched(attributes, TopologyAttributes(c), Owned(cfg));
      ForeignUntouched(UpsertAll(attributes, TopologyAttributes(c)), scan.attributes, Owned(cfg));
    } else {
      ForeignUntouched(attributes, scan.attributes, Owned(cfg));
    }
  }

  lemma {:induction false} StoredStep(cfg: Config, s: State, step: Step)
    requires OwnFingerprint(cfg)
    requires StoredInv(cfg, s) && Enabled(cfg, s, step)
    ensures StoredInv(cfg, Next(cfg, s, step))
  {
    if step.Work? {
      WorkKeepsStored(cfg, s, step.answers, step.zones);
    } else {
      OutsideKeepsStored(cfg, s, step);
    }
  }

  lemma {:induction false} OutsideKeepsStored(cfg: Config, s: State, step: Step)
    requires StoredInv(cfg, s) && Enabled(cfg, s, step) && !step.Work?
    ensures StoredInv(cfg, Next(cfg, s, step))
  {
  }

  lemma {:induction false} LogHistory(log: seq<Record>, r: Record)
    ensures LastConfig(log + [r]) == if r.config.Some? then r.config else LastConfig(log)
    ensures LastSign(log + [r])
         == if r.scan.attributes != [] then Some(r.scan.attributes[0].value) else if r.created then None else LastSign(log)
    ensures EverCreated(log + [r]) <==> EverCreated(log) || r.created
  {
    var all := log + [r];
    if EverCreated(log) {
      var i :| 0 <= i < |log| && log[i].created;
      assert all[i].created;
    }
    if r.created {
      assert all[|log|].created;
    }
  }

  lemma {:induction false} WorkKeepsStored(cfg: Config, s: State, a: Answers, zones: seq<Zone>)
    requires OwnFingerprint(cfg)
    requires StoredInv(cfg, s) && Enabled(cfg, s, Work(a, zones))
    ensures StoredInv(cfg, Next(cfg, s, Work(a, zones)))
  {
    hide Renders, Lookup, Foreign, LastSign, LastConfig, EverCreated, DetectTopologyPolicy, NodeData.Final, NodeData.Panics, UpsertAll, Handle,
         ReportsFingerprint;
    WorkOutcome(cfg, s, a, zones);
    var record := RecordOf(cfg, s, a, zones);
    if record.Some? {
      var scan, interval := a.scan.value, EventOf(s.worker.trigger) == IntervalBased;
      LogHistory(s.log, record.value);
      WrittenLookup(cfg, s.stored, zones, scan, interval, a, POLICY_ATTRIBUTE);
      WrittenLookup(cfg, s.stored, zones, scan, interval, a, SCOPE_ATTRIBUTE);
      WrittenLookup(cfg, s.stored, zones, scan, interval, a, cfg.fingerprint);
      WrittenForeign(cfg, s.stored, zones, scan, interval, a);
      assert |POLICY_ATTRIBUTE| != |SCOPE_ATTRIBUTE|;
      LookupNone(cfg.fingerprint);
    }
  }

  // ---- All runs ----

  lemma {:induction false} InitHolds(cfg: Config, s: State)
    requires Init(cfg, s)
    ensures HandOffInv(s) && FlowInv(cfg, s) && StoredInv(cfg, s)
  {
  }

  lemma {:induction false} ReachableInv(cfg: Config, start: State, steps: seq<Step>, s: State)
    requires Init(cfg, start) && Reaches(cfg, start, steps, s)
    ensures HandOffInv(s) && FlowInv(cfg, s)
    ensures OwnFingerprint(cfg) ==> StoredInv(cfg, s)
  {
    hide Init, Enabled, Next, HandOffInv, FlowInv, StoredInv, OwnFingerprint;
    if steps == [] {
      InitHolds(cfg, s);
    } else {
      var front, last := steps[..|steps| - 1], steps[|steps| - 1];
      var mid :| Reaches(cfg, start, front, mid) && Enabled(cfg, mid, last) && s == Next(cfg, mid, last);
      ReachableInv(cfg, start, front, mid);
      HandOffStep(cfg, mid, last);
      FlowStep(cfg, mid, last);
      if OwnFingerprint(cfg) {
        StoredStep(cfg, mid, last);
      }
    }
  }

  /** Over every run: once a config was read for a publication, the stored object shows the last one read. */
  lemma {:induction false} StoredShowsLastConfig(cfg: Config, start: State, steps: seq<Step>, s: State)
    requires Init(cfg, start) && Reaches(cfg, start, steps, s)
    requires OwnFingerprint(cfg)
    requires s.stored.Some? && LastConfig(s.log).Some?
    ensures ShowsConfig(s.stored.value, LastConfig(s.log).value)
  {
    ReachableInv(cfg, start, steps, s);
  }

  lemma {:induction false} SignHistory(log: seq<Record>)
    ensures RecreatedUnsigned(log) ==> EverCreated(log) && LastSign(log) == None
    ensures !RecreatedUnsigned(log) ==> LastSign(log) == LastSigned(log)
  {
    if log != [] {
      var front, last := log[..|log| - 1], log[|log| - 1];
      SignHistory(front);
      if last.scan.attributes == [] {
        if last.created {
          assert Unsigned(log, |front|);
        }
        if RecreatedUnsigned(front) {
          var k :| 0 <= k < |front| && front[k].created && Unsigned(front, k);
          assert log[k].created && Unsigned(log, k);
        }
        if k :| 0 <= k < |log| && log[k].created && Unsigned(log, k) {
          assert k < |front| ==> front[k].created && Unsigned(front, k);
        }
      } else {
        assert forall k :: 0 <= k < |log| ==> !Unsigned(log, k);
      }
    }
  }

  /** Over every run: the stored fingerprint is that of the latest published scan that had one if and only if the
      object was not created again since by a scan without; if it was, the object has none. */
  lemma {:induction false} FingerprintExactly(cfg: Config, start: State, steps: seq<Step>, s: State)
    requires Init(cfg, start) && Reaches(cfg, start, steps, s)
    requires OwnFingerprint(cfg)
    requires s.stored.Some? && LastSigned(s.log).Some?
    ensures Lookup(s.stored.value.attributes, cfg.fingerprint) == LastSigned(s.log) <==> !RecreatedUnsigned(s.log)
    ensures RecreatedUnsigned(s.log) ==> Lookup(s.stored.value.attributes, cfg.fingerprint) == None
  {
    ReachableInv(cfg, start, steps, s);
    SignHistory(s.log);
  }

  /** Over every run: after a publication the stored zones are those of the latest published scan, its fingerprint
      stands if it has one, and foreign attributes keep their values and order. */
  lemma {:induction false} StoredShowsLatestScan(cfg: Config, start: State, steps: seq<Step>, s: State)
    requires Init(cfg, start) && Reaches(cfg, start, steps, s)
    requires OwnFingerprint(cfg)
    requires s.stored.Some? && s.log != []
    ensures
      var latest := s.log[|s.log| - 1].scan;
      && Renders(s.stored.value.zones, cfg.data, cfg.data.Final(latest.pods))
      && (latest.attributes != [] ==> Lookup(s.stored.value.attributes, cfg.fingerprint) == Some(latest.attributes[0].value))
    ensures Foreign(s.stored.value.attributes, Owned(cfg)) == s.foreign
  {
    ReachableInv(cfg, start, steps, s);
  }

  lemma {:induction false} ReachesSnoc(cfg: Config, start: State, steps: seq<Step>, mid: State, step: Step)
    returns (longer: seq<Step>, s: State)
    requires Reaches(cfg, start, steps, mid) && Enabled(cfg, mid, step)
    ensures longer == steps + [step] && s == Next(cfg, mid, step) && Reaches(cfg, start, longer, s)
  {
    hide Enabled, Next;
    longer, s := steps + [step], Next(cfg, mid, step);
    assert longer[..|longer| - 1] == steps;
  }

  /** One undisturbed round from an idle state: a tick, the hand-off, and a publication that succeeds. */
  lemma {:induction false} TickRound(cfg: Config, start: State, steps: seq<Step>, s: State, scan: ScanResponse,
                                     c: KubeletConfig, zones: seq<Zone>)
    returns (longer: seq<Step>, t: State)
    requires Reaches(cfg, start, steps, s) && s.pending == None && s.worker == Waiting && cfg.ticks && cfg.args == Args(false, false)
    requires !cfg.data.Panics(scan.pods) && ZonesFor(cfg.data, Some(scan), zones) && ReportsFingerprint(cfg, scan)
    ensures Reaches(cfg, start, longer, t) && t.pending == None && t.worker == Waiting
    ensures t.stored == Written(s.stored, zones, scan, true, Answers(Some(scan), true, true, Some(c), true))
    ensures t.log == s.log + [Record(scan, Some(c), s.stored.None?)]
  {
    hide Reaches, NodeData.Panics, ZonesFor, ReportsFingerprint;
    var mid;
    longer, mid := ReachesSnoc(cfg, start, steps, s, Arrive(Tick));
    longer, mid := ReachesSnoc(cfg, start, longer, mid, HandOff);
    longer, t := ReachesSnoc(cfg, start, longer, mid, Work(Answers(Some(scan), true, true, Some(c), true), zones));
  }

  lemma {:induction false} EmptyMachine(d: NodeData)
    requires d.nodes == []
    ensures !d.Panics([]) && Renders([], d, d.Final([]))
  {
    var order: seq<int> := [];
    assert d.Known() == {} && Visits(order, d.Known());
  }

  lemma {:induction false} ReachesNone(cfg: Config, start: State)
    ensures Reaches(cfg, start, [], start)
  {
  }

  /** A run that loses the fingerprint: published with one, deleted, and created again by a scan without. */
  lemma {:induction false} FingerprintLost() returns (cfg: Config, start: State, steps: seq<Step>, s: State)
    ensures Init(cfg, start) && Reaches(cfg, start, steps, s) && OwnFingerprint(cfg)
    ensures s.stored.Some? && LastSigned(s.log) == Some("x") && Lookup(s.stored.value.attributes, cfg.fingerprint) == None
  {
    hide Reaches, Renders, Handle, NodeData.Panics, Lookup, UpsertAll, DetectTopologyPolicy, NodeData.Final;
    cfg := Config(Args(false, false), NodeData([], map[], map[], map[], map[], {}), true, true, "sign");
    start := State(None, 0, Waiting, None, [], [], [], [], []);
    var signed, unsigned := ScanResponse([], [AttributeInfo(cfg.fingerprint, "x")]), ScanResponse([], []);
    var c := KubeletConfig("none", "container");
    EmptyMachine(cfg.data);
    ReachesNone(cfg, start);
    var mid;
    steps, mid := TickRound(cfg, start, [], start, signed, c, []);
    steps, mid := ReachesSnoc(cfg, start, steps, mid, Delete);
    steps, s := TickRound(cfg, start, steps, mid, unsigned, c, []);
    assert |cfg.fingerprint| < |SCOPE_ATTRIBUTE| < |POLICY_ATTRIBUTE|;
    LastSignedTwo(Record(signed, Some(c), true), Record(unsigned, Some(c), true));
    WrittenLookup(cfg, None, [], unsigned, true, Answers(Some(unsigned), true, true, Some(c), true), cfg.fingerprint);
  }

  lemma {:induction false} LastSignedTwo(r1: Record, r2: Record)
    requires r1.scan.attributes != [] && r2.scan.attributes == []
    ensures LastSigned([] + [r1] + [r2]) == Some(r1.scan.attributes[0].value)
  {
    assert ([] + [r1] + [r2])[..1] == [r1];
  }

  /** Over every run: the file events the updater has taken, followed by the one the notifier may still be sending,
      are the state-file events received, each once and in order; and every notification taken stems from a tick or
      such an event. */
  lemma {:induction false} NoFileEventLost(cfg: Config, start: State, steps: seq<Step>, s: State)
    requires Init(cfg, start) && Reaches(cfg, start, steps, s)
    ensures FilePaths(s.arrived) == FilePaths(s.taken) + FilePaths(PendingList(s)) && |FilePaths(PendingList(s))| <= 1
    ensures forall i :: 0 <= i < |s.taken| ==> s.taken[i] in s.arrived && Relevant(s.taken[i])
    ensures s.stopRequests <= 1
  {
    hide Init, FlatMap, StoredInv, FlowInv, Relevant;
    ReachableInv(cfg, start, steps, s);
    FlatMapAppend(PathOf, s.taken, PendingList(s));
    assert forall i :: 0 <= i < |s.taken| ==> s.taken[i] == s.arrived[i];
    if s.pending.Some? {
      FlatMapStep(PathOf, PendingList(s), 0);
      FlatMapNone(PathOf, [], PendingList(s));
      assert PendingList(s)[..1] == PendingList(s);
    } else {
      FlatMapNone(PathOf, [], PendingList(s));
      assert PendingList(s)[..0] == PendingList(s);
    }
  }

  function PathOf(t: Trigger): seq<string> {
    match t case File(path) => [path] case Tick => []
  }

  function FilePaths(ts: seq<Trigger>): seq<string> {
    FlatMap(PathOf, ts)
  }

  /** Over every run: with NoPublish nothing is ever written, and with Oneshot at most one write follows, of the
      first successful scan, after which the updater has ended. */
  lemma {:induction false} PublishingLimits(cfg: Config, start: State, steps: seq<Step>, s: State)
    requires Init(cfg, start) && Reaches(cfg, start, steps, s)
    ensures cfg.args.noPublish ==> s.log == []
    ensures cfg.args.oneshot ==> |s.log| <= 1
    ensures cfg.args.oneshot && s.log != [] ==> s.worker.Ended? && s.scans != [] && s.log[0].scan == s.scans[0]
    ensures !cfg.args.noPublish && !s.worker.Ended? ==> LogScans(s.log) == s.scans
  {
    ReachableInv(cfg, start, steps, s);
    assert forall i :: 0 <= i < |s.log| ==> LogScans(s.log)[i] == s.log[i].scan;
  }

  /** Only a logged write, a deletion or an edit by others changes the stored object; a failed scan changes nothing. */
  lemma {:induction false} OnlyWritesChange(cfg: Config, s: State, step: Step)
    requires Enabled(cfg, s, step)
    ensures Next(cfg, s, step).stored != s.stored ==> step.Delete? || step.Edit? || |Next(cfg, s, step).log| == |s.log| + 1
    ensures step.Work? && step.answers.scan.None?
      ==> Next(cfg, s, step) == s.(worker := Waiting)
  {
    hide Handle, RecordOf, Relevant;
    if step.Work? {
      WorkOutcome(cfg, s, step.answers, step.zones);
      if step.answers.scan.None? {
        NoRecord(cfg, s, step.answers, step.zones);
      }
    }
  }

  lemma {:induction false} NoRecord(cfg: Config, s: State, a: Answers, zones: seq<Zone>)
    requires s.worker.Working? && a.scan.None?
    ensures RecordOf(cfg, s, a, zones).None?
  {
  }
}
