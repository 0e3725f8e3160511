/** The topology updater: one publication to the API server, and the event loop. */
module Updater {
  import opened Common
  import opened Aggregator
  import opened Attributes
  import opened Scanner
  import opened TopologyPolicy
  import opened Notifier

  const POLICY_ATTRIBUTE := "topologyManagerPolicy"
  const SCOPE_ATTRIBUTE := "topologyManagerScope"

  /** The stored NodeResourceTopology of this node. */
  datatype Nrt = Nrt(policies: seq<string>, zones: seq<Zone>, attributes: seq<AttributeInfo>)

  datatype KubeletConfig = KubeletConfig(policy: string, scope: string)

  /** What the outside answers while one event is handled. A scan or a config of None is an error. */
  datatype Answers = Answers(
    scan: Option<ScanResponse>, clientOk: bool, getOk: bool, config: Option<KubeletConfig>, writeOk: bool)

  datatype Args = Args(noPublish: bool, oneshot: bool)

  function TopologyAttributes(c: KubeletConfig): seq<AttributeInfo> {
    [AttributeInfo(POLICY_ATTRIBUTE, c.policy), AttributeInfo(SCOPE_ATTRIBUTE, c.scope)]
  }

  // ---- One publication ----

  function WithConfig(o: Nrt, c: KubeletConfig): Nrt {
    o.(policies := [DetectTopologyPolicy(c.policy, c.scope)], attributes := UpsertAll(o.attributes, TopologyAttributes(c)))
  }

  function WithScan(o: Nrt, scan: ScanResponse): Nrt {
    o.(attributes := UpsertAll(o.attributes, scan.attributes))
  }

  /** The object a publication writes, or None when it gives up before writing. */
  function Written(stored: Option<Nrt>, zones: seq<Zone>, scan: ScanResponse, readConfig: bool, a: Answers): Option<Nrt> {
    if !a.clientOk || !a.getOk then None
    else
      var base := match stored case None => Nrt([], zones, []) case Some(o) => o.(zones := zones);
      if stored == None || readConfig then
        match a.config
        case None => None
        case Some(c) => Some(WithScan(WithConfig(base, c), scan))
      else Some(WithScan(base, scan))
  }

  /** The stored object and whether the publication succeeded. */
  function Publish(stored: Option<Nrt>, zones: seq<Zone>, scan: ScanResponse, readConfig: bool, a: Answers): (Option<Nrt>, bool) {
    var w := Written(stored, zones, scan, readConfig, a);
    if w.Some? && a.writeOk then (w, true) else (stored, false)
  }

  /** When a publication succeeds and what it leaves: exactly when the API server answers every request and, for a new
      object or when asked to, the kubelet config can be read. The object then has the new zones, and the policies of
      the config if one was read, else the old ones. */
  lemma {:induction false} PublishExactly(stored: Option<Nrt>, zones: seq<Zone>, scan: ScanResponse, readConfig: bool, a: Answers)
    ensures
      var (o, ok) := Publish(stored, zones, scan, readConfig, a);
      && (ok <==> a.clientOk && a.getOk && a.writeOk && (stored.None? || readConfig ==> a.config.Some?))
      && (!ok ==> o == stored)
      && (ok ==> o.Some? && o.value.zones == zones)
      && (ok && (stored.None? || readConfig) ==> o.value.policies == [DetectTopologyPolicy(a.config.value.policy, a.config.value.scope)])
      && (ok && stored.Some? && !readConfig ==> o.value.policies == stored.value.policies)
  {
  }

  /** The in-memory object that a publication builds and mutates. */
  class NrtObject {
    var topologyPolicies: seq<string>
    var zones: seq<Zone>
    const attributes: AttributeList

    constructor (zones: seq<Zone>)
      ensures fresh(attributes) && Value() == Nrt([], zones, [])
    {
      this.topologyPolicies := [];
      this.zones := zones;
      this.attributes := new AttributeList([]);
    }

    constructor DeepCopy(o: Nrt)
      ensures fresh(attributes) && Value() == o
    {
      this.topologyPolicies := o.policies;
      this.zones := o.zones;
      this.attributes := new AttributeList(o.attributes);
    }

    function Value(): Nrt
      reads this, attributes
    {
      Nrt(topologyPolicies, zones, attributes.items)
    }
  }

  method UpdateNRTTopologyManagerInfo(nrt: NrtObject, config: Option<KubeletConfig>) returns (ok: bool)
    modifies nrt, nrt.attributes
    ensures ok <==> config.Some?
    ensures nrt.Value() == if ok then WithConfig(old(nrt.Value()), config.value) else old(nrt.Value())
  {
    if config == None {
      return false;
    }
    var tmAttributes := TopologyAttributes(config.value);
    UpdateAttributes(nrt.attributes, tmAttributes);
    nrt.topologyPolicies := [DetectTopologyPolicy(config.value.policy, config.value.scope)];
    return true;
  }

  /** The API server, holding at most one object for this node. */
  class Server {
    var stored: Option<Nrt>

    constructor (stored: Option<Nrt>)
      ensures this.stored == stored
    {
      this.stored := stored;
    }
  }

  method UpdateNodeResourceTopology(server: Server, zones: seq<Zone>, scan: ScanResponse, readConfig: bool, a: Answers)
    returns (ok: bool)
    modifies server
    ensures (server.stored, ok) == Publish(old(server.stored), zones, scan, readConfig, a)
  {
    if !a.clientOk {
      return false;
    }
    if !a.getOk {
      return false;
    }
    if server.stored == None {
      var nrtNew := new NrtObject(zones);
      var configOk := UpdateNRTTopologyManagerInfo(nrtNew, a.config);
      if !configOk {
        return false;
      }
      UpdateAttributes(nrtNew.attributes, scan.attributes);
      if !a.writeOk {
        return false;
      }
      server.stored := Some(nrtNew.Value());
      return true;
    }
    var nrtMutated := new NrtObject.DeepCopy(server.stored.value);
    nrtMutated.zones := zones;
    if readConfig {
      var configOk := UpdateNRTTopologyManagerInfo(nrtMutated, a.config);
      if !configOk {
        return false;
      }
    }
    UpdateAttributes(nrtMutated.attributes, scan.attributes);
    if !a.writeOk {
      return false;
    }
    server.stored := Some(nrtMutated.Value());
    return true;
  }

  // ---- The event loop ----

  datatype Status = Running | Returned(ok: bool) | Crashed

  /** One event: scan, aggregate, publish. zones is what Aggregate made of the scan, when it did not crash. */
  ghost function Handle(args: Args, d: NodeData, stored: Option<Nrt>, event: EventType, a: Answers, zones: seq<Zone>): (Option<Nrt>, Status) {
    match a.scan
    case None => (stored, Running)
    case Some(scan) =>
      if d.Panics(scan.pods) then (stored, Crashed)
      else
        var (next, ok) := if args.noPublish then (stored, true) else Publish(stored, zones, scan, event == IntervalBased, a);
        if !ok then (next, Returned(false))
        else if args.oneshot then (next, Returned(true))
        else (next, Running)
  }

  /** zones is a possible result of aggregating this scan. */
  ghost predicate ZonesFor(d: NodeData, scan: Option<ScanResponse>, zones: seq<Zone>) {
    scan.Some? && !d.Panics(scan.value.pods) ==> Renders(zones, d, d.Final(scan.value.pods))
  }

  /** What the select of the event loop takes next; Outside is any change of the stored object by someone else. */
  datatype Input = Event(info: Info, answers: Answers) | StopSignal | Outside(stored: Option<Nrt>)

  /** The stored object and whether the loop is still running. */
  type LoopState = (Option<Nrt>, Status)

  ghost predicate Steps(args: Args, d: NodeData, before: LoopState, input: Input, after: LoopState) {
    if before.1 != Running then after == before
    else match input
      case Event(info, a) => exists zones :: ZonesFor(d, a.scan, zones) && after == Handle(args, d, before.0, info.event, a, zones)
      case StopSignal => after == (before.0, Returned(true))
      case Outside(changed) => after == (changed, Running)
  }

  /** A run of the event loop over a trace of inputs can end in this state. */
  ghost predicate RunsTo(args: Args, d: NodeData, start: LoopState, inputs: seq<Input>, end: LoopState) {
    if inputs == [] then end == start
    else
      var front, last := inputs[..|inputs| - 1], inputs[|inputs| - 1];
      exists mid :: RunsTo(args, d, start, front, mid) && Steps(args, d, mid, last, end)
  }

  lemma {:induction false} RunsToSnoc(args: Args, d: NodeData, start: LoopState, inputs: seq<Input>, k: nat, mid: LoopState, end: LoopState)
    requires k < |inputs| && RunsTo(args, d, start, inputs[..k], mid) && Steps(args, d, mid, inputs[k], end)
    ensures RunsTo(args, d, start, inputs[..k + 1], end)
  {
    assert inputs[..k + 1][..k] == inputs[..k];
  }

  lemma {:induction false} RunsToNone(args: Args, d: NodeData, start: LoopState, inputs: seq<Input>)
    ensures RunsTo(args, d, start, inputs[..0], start)
  {
  }

  /** The status the loop ends with on an event, None when it goes on. */
  ghost function EndsOnEvent(args: Args, d: NodeData, stored: Option<Nrt>, event: EventType, a: Answers): Option<Status> {
    if a.scan.None? then None
    else if d.Panics(a.scan.value.pods) then Some(Crashed)
    else if !args.noPublish && !(a.clientOk && a.getOk && a.writeOk) then Some(Returned(false))
    else if !args.noPublish && (stored.None? || event == IntervalBased) && a.config.None? then Some(Returned(false))
    else if args.oneshot then Some(Returned(true))
    else None
  }

  /** How an event ends the loop, by its answers: a failed scan never does, a crash or a failed answer always does, and
      with Oneshot the first event that is handled. */
  lemma {:induction false} HandleEnds(args: Args, d: NodeData, stored: Option<Nrt>, event: EventType, a: Answers, zones: seq<Zone>)
    ensures
      var status := Handle(args, d, stored, event, a, zones).1;
      match EndsOnEvent(args, d, stored, event, a)
      case None => status == Running
      case Some(end) => status == end
  {
    hide Publish, NodeData.Panics;
    if a.scan.Some? {
      PublishExactly(stored, zones, a.scan.value, event == IntervalBased, a);
    }
  }

  class TopologyUpdater {
    const args: Args

    constructor (args: Args)
      ensures this.args == args
    {
      this.args := args;
    }

    /** The body of the event case of the select. */
    method HandleEvent(server: Server, resAggr: NodeResources, info: Info, a: Answers) returns (status: Status, zones: seq<Zone>)
      modifies server
      ensures (server.stored, status) == Handle(args, resAggr.Data(), old(server.stored), info.event, a, zones)
      ensures ZonesFor(resAggr.Data(), a.scan, zones)
    {
      hide NodeData.Panics, NodeData.Final, Renders, Publish;
      zones := [];
      if a.scan == None {
        return Running, zones;
      }
      var panicked: bool;
      panicked, zones := resAggr.Aggregate(a.scan.value.pods);
      if panicked {
        return Crashed, zones;
      }
      var readKubeletConfig := false;
      if info.event == IntervalBased {
        readKubeletConfig := true;
      }
      if !args.noPublish {
        var ok := UpdateNodeResourceTopology(server, zones, a.scan.value, readKubeletConfig, a);
        if !ok {
          return Returned(false), zones;
        }
      }
      if args.oneshot {
        return Returned(true), zones;
      }
      return Running, zones;
    }

    /** The event loop over a trace of inputs; the trace stands for what the select receives, one at a time. */
    method Run(server: Server, resAggr: NodeResources, inputs: seq<Input>) returns (status: Status)
      modifies server
      ensures RunsTo(args, resAggr.Data(), (old(server.stored), Running), inputs, (server.stored, status))
    {
      hide RunsTo, Steps, Handle;
      status := Running;
      ghost var start := (server.stored, Running);
      RunsToNone(args, resAggr.Data(), start, inputs);
      for k := 0 to |inputs|
        invariant RunsTo(args, resAggr.Data(), start, inputs[..k], (server.stored, status))
      {
        ghost var before := (server.stored, status);
        if status == Running {
          match inputs[k]
          case Event(info, a) =>
            var zones;
            status, zones := HandleEvent(server, resAggr, info, a);
            EventStep(args, resAggr.Data(), before.0, info, a, zones);
          case StopSignal =>
            status := Returned(true);
            StopStep(args, resAggr.Data(), before.0);
          case Outside(changed) =>
            server.stored := changed;
            OutsideStep(args, resAggr.Data(), before.0, changed);
        } else {
          DoneStep(args, resAggr.Data(), before, inputs[k]);
        }
        RunsToSnoc(args, resAggr.Data(), start, inputs, k, before, (server.stored, status));
      }
      assert inputs[..|inputs|] == inputs;
    }
  }

  lemma {:induction false} EventStep(args: Args, d: NodeData, stored: Option<Nrt>, info: Info, a: Answers, zones: seq<Zone>)
    requires ZonesFor(d, a.scan, zones)
    ensures Steps(args, d, (stored, Running), Event(info, a), Handle(args, d, stored, info.event, a, zones))
  {
  }

  lemma {:induction false} StopStep(args: Args, d: NodeData, stored: Option<Nrt>)
    ensures Steps(args, d, (stored, Running), StopSignal, (stored, Returned(true)))
  {
  }

  lemma {:induction false} OutsideStep(args: Args, d: NodeData, stored: Option<Nrt>, changed: Option<Nrt>)
    ensures Steps(args, d, (stored, Running), Outside(changed), (changed, Running))
  {
  }

  lemma {:induction false} DoneStep(args: Args, d: NodeData, before: LoopState, input: Input)
    requires before.1 != Running
    ensures Steps(args, d, before, input, before)
  {
  }
}
