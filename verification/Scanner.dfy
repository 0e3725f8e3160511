/** The scanner: which pods are watched, and how their raw holdings become resource entries. */
module Scanner {
  import opened Common
  import opened Decimal
  import opened PodResourcesApi
  import opened Attributes

  /** A CPU quantity in billionths of a CPU. */
  type Quantity = int

  const NANO := 1_000_000_000
  const MICRO := 1_000_000

  datatype ApiContainer = ApiContainer(cpuRequest: Option<Quantity>)

  datatype ApiPod = ApiPod(initContainers: seq<ApiContainer>, containers: seq<ApiContainer>)

  datatype RawContainer =
    RawContainer(name: string, cpuIds: seq<int>, devices: seq<ContainerDevices>, memory: seq<ContainerMemory>)

  datatype RawPod = RawPod(name: string, namespace: string, containers: seq<RawContainer>)

  /** What the API server answers for (namespace, name) during a scan; None is an error. */
  type ApiAnswers = (string, string) -> Option<ApiPod>

  datatype ScanResponse = ScanResponse(pods: seq<PodResources>, attributes: seq<AttributeInfo>)

  // ---- Exclusive CPUs ----

  function RoundAway(n: int, unit: int): int
    requires unit > 0
  {
    if n >= 0 then (n + unit - 1) / unit else -((-n + unit - 1) / unit)
  }

  function Value(q: Quantity): int {
    RoundAway(q, NANO)
  }

  function MilliValue(q: Quantity): int {
    RoundAway(q, MICRO)
  }

  function RequestOf(c: ApiContainer): seq<Quantity> {
    match c.cpuRequest
    case Some(q) => [q]
    case None => []
  }

  /** The CPU requests of a pod's init and app containers. */
  function Requests(pod: ApiPod): seq<Quantity> {
    FlatMap(RequestOf, pod.initContainers) + FlatMap(RequestOf, pod.containers)
  }

  predicate HasIntegralCPUs(q: Quantity) {
    Value(q) * 1000 == MilliValue(q)
  }

  predicate AllIntegral(qs: seq<Quantity>) {
    forall i :: 0 <= i < |qs| ==> HasIntegralCPUs(qs[i])
  }

  function SumValues(qs: seq<Quantity>): int {
    if qs == [] then 0 else SumValues(qs[..|qs| - 1]) + Value(qs[|qs| - 1])
  }

  predicate Exclusive(pod: ApiPod) {
    AllIntegral(Requests(pod)) && Wrap64(SumValues(Requests(pod))) != 0
  }

  lemma {:induction false} SumSnoc(qs: seq<Quantity>, q: Quantity)
    ensures SumValues(qs + [q]) == SumValues(qs) + Value(q)
  {
  }

  lemma {:induction false} IntegralSnoc(qs: seq<Quantity>, q: Quantity)
    ensures AllIntegral(qs + [q]) <==> AllIntegral(qs) && HasIntegralCPUs(q)
  {
    hide HasIntegralCPUs;
    var all := qs + [q];
    assert all[|qs|] == q && forall i :: 0 <= i < |qs| ==> all[i] == qs[i];
  }

  lemma {:induction false} IntegralPrefix(qs: seq<Quantity>, all: seq<Quantity>)
    requires qs <= all && !AllIntegral(qs)
    ensures !AllIntegral(all)
  {
  }

  /** The loop over one list of containers; ok is false on the early return. */
  method AddRequests(totalCPU: int, containers: seq<ApiContainer>, ghost before: seq<Quantity>) returns (total: int, ok: bool)
    requires totalCPU == Wrap64(SumValues(before)) && AllIntegral(before)
    ensures ok <==> AllIntegral(before + FlatMap(RequestOf, containers))
    ensures ok ==> total == Wrap64(SumValues(before + FlatMap(RequestOf, containers)))
  {
    hide FlatMap, HasIntegralCPUs, Wrap64, Value, SumValues, AllIntegral;
    total := totalCPU;
    FlatMapNone(RequestOf, before, containers);
    for i := 0 to |containers|
      invariant AllIntegral(before + FlatMap(RequestOf, containers[..i]))
      invariant total == Wrap64(SumValues(before + FlatMap(RequestOf, containers[..i])))
    {
      ghost var done := before + FlatMap(RequestOf, containers[..i]);
      FlatMapStep(RequestOf, containers, i);
      assert done + [] == done;
      assert before + FlatMap(RequestOf, containers[..i + 1]) == done + RequestOf(containers[i]);
      if containers[i].cpuRequest == None {
        continue;
      }
      var q := containers[i].cpuRequest.value;
      WrapOfWrappedSum(SumValues(done), Value(q));
      SumSnoc(done, q);
      IntegralSnoc(done, q);
      total := Wrap64(total + Value(q));
      if !HasIntegralCPUs(q) {
        RequestsPrefix(containers, i + 1);
        IntegralPrefix(done + [q], before + FlatMap(RequestOf, containers));
        return total, false;
      }
    }
    assert containers[..|containers|] == containers;
    return total, true;
  }

  lemma {:induction false} RequestsPrefix(containers: seq<ApiContainer>, k: nat)
    requires k <= |containers|
    ensures FlatMap(RequestOf, containers[..k]) <= FlatMap(RequestOf, containers)
  {
    FlatMapAppend(RequestOf, containers[..k], containers[k..]);
    assert containers == containers[..k] + containers[k..];
  }

  method HasExclusiveCPUs(pod: ApiPod) returns (exclusive: bool)
    ensures exclusive == Exclusive(pod)
  {
    hide FlatMap, HasIntegralCPUs, Wrap64, SumValues, AllIntegral;
    NoRequests();
    var totalCPU, ok := AddRequests(0, pod.initContainers, []);
    assert [] + FlatMap(RequestOf, pod.initContainers) == FlatMap(RequestOf, pod.initContainers);
    if !ok {
      IntegralPrefix(FlatMap(RequestOf, pod.initContainers), Requests(pod));
      return false;
    }
    totalCPU, ok := AddRequests(totalCPU, pod.containers, FlatMap(RequestOf, pod.initContainers));
    if !ok {
      return false;
    }
    return totalCPU != 0;
  }

  lemma {:induction false} NoRequests()
    ensures Wrap64(SumValues([])) == 0 && AllIntegral([])
  {
  }

  /** A request passes the integrality test exactly when it lies less than a thousandth of a CPU below a whole number. */
  lemma {:induction false} IntegralExactly(q: Quantity)
    requires q >= 0
    ensures HasIntegralCPUs(q) <==> exists whole: int :: whole * NANO - MICRO < q <= whole * NANO
  {
    var v, m := Value(q), MilliValue(q);
    assert (v - 1) * NANO < q <= v * NANO;
    assert (m - 1) * MICRO < q <= m * MICRO;
    if HasIntegralCPUs(q) {
      assert v * NANO - MICRO < q <= v * NANO;
    }
    if whole: int :| whole * NANO - MICRO < q <= whole * NANO {
      assert whole == v;
      assert v * 1000 - 1 < m && m - 1 < v * 1000;
    }
  }

  /** A whole number of thousandths within a thousandth below a whole CPU is that whole CPU. */
  lemma {:induction false} NearestWhole(q: Quantity, whole: int, millis: int)
    requires q == MICRO * millis && whole * NANO - MICRO < q <= whole * NANO
    ensures q == NANO * whole
  {
  }

  lemma {:induction false} MultipleOf(q: int, k: int)
    requires q == NANO * k
    ensures q % NANO == 0
  {
  }

  /** For requests in whole thousandths of a CPU, the test is integrality; finer requests can slip through. */
  lemma {:induction false} IntegralInMillis(q: Quantity)
    requires q >= 0
    ensures q % MICRO == 0 ==> (HasIntegralCPUs(q) <==> q % NANO == 0)
    ensures HasIntegralCPUs(999_999_999) && 999_999_999 % NANO != 0
  {
    hide HasIntegralCPUs;
    IntegralExactly(q);
    if q % MICRO == 0 && HasIntegralCPUs(q) {
      var whole: int :| whole * NANO - MICRO < q <= whole * NANO;
      NearestWhole(q, whole, q / MICRO);
      MultipleOf(q, whole);
    }
    if q % NANO == 0 {
      var whole := q / NANO;
      assert whole * NANO - MICRO < q <= whole * NANO;
    }
    FinerSlipsThrough();
  }

  lemma {:induction false} FinerSlipsThrough()
    ensures HasIntegralCPUs(999_999_999)
  {
  }

  lemma {:induction false} SumPositive(qs: seq<Quantity>)
    requires forall i :: 0 <= i < |qs| ==> qs[i] >= 0
    ensures SumValues(qs) >= 0
    ensures SumValues(qs) > 0 <==> exists i :: 0 <= i < |qs| && qs[i] > 0
  {
    if qs != [] {
      var front, last := qs[..|qs| - 1], qs[|qs| - 1];
      SumPositive(front);
      assert Value(last) >= 0 && (Value(last) > 0 <==> last > 0);
      if SumValues(front) > 0 {
        var i :| 0 <= i < |front| && front[i] > 0;
        assert qs[i] > 0;
      }
    }
  }

  /** A whole number of CPUs, or less than a thousandth of a CPU below one. */
  ghost predicate NearlyWhole(q: Quantity) {
    exists whole: int :: whole * NANO - MICRO < q <= whole * NANO
  }

  /** Some container of the list asks for more than nothing. */
  ghost predicate SomeAsks(cs: seq<ApiContainer>) {
    exists i :: 0 <= i < |cs| && cs[i].cpuRequest.Some? && cs[i].cpuRequest.value > 0
  }

  ghost predicate NoneNegative(cs: seq<ApiContainer>) {
    forall i :: 0 <= i < |cs| && cs[i].cpuRequest.Some? ==> cs[i].cpuRequest.value >= 0
  }

  /** Every container of the list that asks for CPU asks for a whole number, or within a thousandth below one. */
  ghost predicate AllNearlyWhole(cs: seq<ApiContainer>) {
    forall i :: 0 <= i < |cs| && cs[i].cpuRequest.Some? ==> NearlyWhole(cs[i].cpuRequest.value)
  }

  ghost predicate AllInMillis(cs: seq<ApiContainer>) {
    forall i :: 0 <= i < |cs| && cs[i].cpuRequest.Some? ==> cs[i].cpuRequest.value % MICRO == 0
  }

  ghost predicate AllWhole(cs: seq<ApiContainer>) {
    forall i :: 0 <= i < |cs| && cs[i].cpuRequest.Some? ==> cs[i].cpuRequest.value % NANO == 0
  }

  /** The CPUs a container asks for, rounded up. */
  function CpusAsked(c: ApiContainer): int {
    match c.cpuRequest
    case Some(q) => Value(q)
    case None => 0
  }

  lemma {:induction false} RequestMember(cs: seq<ApiContainer>, q: Quantity)
    ensures q in FlatMap(RequestOf, cs) <==> exists i :: 0 <= i < |cs| && cs[i].cpuRequest == Some(q)
  {
    FlatMapMember(RequestOf, cs, q);
  }

  lemma {:induction false} SumAppend(a: seq<Quantity>, b: seq<Quantity>)
    ensures SumValues(a + b) == SumValues(a) + SumValues(b)
  {
    if b == [] {
      assert a + b == a;
    } else {
      assert (a + b)[..|a + b| - 1] == a + b[..|b| - 1];
      SumAppend(a, b[..|b| - 1]);
    }
  }

  lemma {:induction false} SumOfRequests(cs: seq<ApiContainer>)
    ensures SumValues(FlatMap(RequestOf, cs)) == SumOver(CpusAsked, cs)
  {
    hide Value;
    if cs != [] {
      var front, last := cs[..|cs| - 1], cs[|cs| - 1];
      SumOfRequests(front);
      SumAppend(FlatMap(RequestOf, front), RequestOf(last));
      if last.cpuRequest.Some? {
        SumSnoc([], last.cpuRequest.value);
        assert [] + [last.cpuRequest.value] == RequestOf(last);
      }
    }
  }

  /** The code's test in terms of the two container lists, for non-negative requests with an int64 sum. */
  lemma {:induction false} ExclusiveByContainers(pod: ApiPod)
    requires NoneNegative(pod.initContainers) && NoneNegative(pod.containers)
    requires SumOver(CpusAsked, pod.initContainers) + SumOver(CpusAsked, pod.containers) < TWO_TO_63
    ensures Exclusive(pod)
       <==> && (forall i :: 0 <= i < |pod.initContainers| && pod.initContainers[i].cpuRequest.Some?
                  ==> HasIntegralCPUs(pod.initContainers[i].cpuRequest.value))
            && (forall i :: 0 <= i < |pod.containers| && pod.containers[i].cpuRequest.Some?
                  ==> HasIntegralCPUs(pod.containers[i].cpuRequest.value))
            && (SomeAsks(pod.initContainers) || SomeAsks(pod.containers))
  {
    hide HasIntegralCPUs, SumValues, FlatMap, SumOver, CpusAsked;
    var qs, init, app := Requests(pod), FlatMap(RequestOf, pod.initContainers), FlatMap(RequestOf, pod.containers);
    SumOfRequests(pod.initContainers);
    SumOfRequests(pod.containers);
    SumAppend(init, app);
    forall q
      ensures q in qs <==> (exists i :: 0 <= i < |pod.initContainers| && pod.initContainers[i].cpuRequest == Some(q))
                           || (exists i :: 0 <= i < |pod.containers| && pod.containers[i].cpuRequest == Some(q))
    {
      RequestMember(pod.initContainers, q);
      RequestMember(pod.containers, q);
      assert q in qs <==> q in init || q in app;
    }
    assert forall i :: 0 <= i < |qs| ==> qs[i] in qs;
    SumPositive(qs);
    assert AllIntegral(qs) <==> forall q :: q in qs ==> HasIntegralCPUs(q);
    if i :| 0 <= i < |pod.initContainers| && pod.initContainers[i].cpuRequest.Some? && pod.initContainers[i].cpuRequest.value > 0 {
      assert pod.initContainers[i].cpuRequest.value in qs;
    }
    if i :| 0 <= i < |pod.containers| && pod.containers[i].cpuRequest.Some? && pod.containers[i].cpuRequest.value > 0 {
      assert pod.containers[i].cpuRequest.value in qs;
    }
    forall i | 0 <= i < |pod.initContainers| && pod.initContainers[i].cpuRequest.Some?
      ensures pod.initContainers[i].cpuRequest.value in qs
    {
      assert pod.initContainers[i].cpuRequest == Some(pod.initContainers[i].cpuRequest.value);
    }
    forall i | 0 <= i < |pod.containers| && pod.containers[i].cpuRequest.Some?
      ensures pod.containers[i].cpuRequest.value in qs
    {
      assert pod.containers[i].cpuRequest == Some(pod.containers[i].cpuRequest.value);
    }
  }

  /** A pod has exclusive CPUs exactly when every init and app container that asks for CPU asks for a whole number, or
      within a thousandth below one, and some of them asks for more than nothing. */
  lemma {:induction false} ExclusiveExactly(pod: ApiPod)
    requires NoneNegative(pod.initContainers) && NoneNegative(pod.containers)
    requires SumOver(CpusAsked, pod.initContainers) + SumOver(CpusAsked, pod.containers) < TWO_TO_63
    ensures Exclusive(pod)
       <==> && AllNearlyWhole(pod.initContainers) && AllNearlyWhole(pod.containers)
            && (SomeAsks(pod.initContainers) || SomeAsks(pod.containers))
  {
    hide HasIntegralCPUs, SumOver, CpusAsked, Exclusive, SomeAsks;
    ExclusiveByContainers(pod);
    forall q: Quantity | q >= 0
      ensures HasIntegralCPUs(q) <==> NearlyWhole(q)
    {
      IntegralExactly(q);
    }
  }

  /** For requests in whole thousandths of a CPU: exactly when every init and app container that asks for CPU asks for a
      whole number of them, and some asks for more than nothing. */
  lemma {:induction false} ExclusiveInMillis(pod: ApiPod)
    requires NoneNegative(pod.initContainers) && NoneNegative(pod.containers)
    requires AllInMillis(pod.initContainers) && AllInMillis(pod.containers)
    requires SumOver(CpusAsked, pod.initContainers) + SumOver(CpusAsked, pod.containers) < TWO_TO_63
    ensures Exclusive(pod)
       <==> && AllWhole(pod.initContainers) && AllWhole(pod.containers)
            && (SomeAsks(pod.initContainers) || SomeAsks(pod.containers))
  {
    hide HasIntegralCPUs, SumOver, CpusAsked, Exclusive, SomeAsks;
    ExclusiveByContainers(pod);
    forall q: Quantity | q >= 0 && q % MICRO == 0
      ensures HasIntegralCPUs(q) <==> q % NANO == 0
    {
      IntegralInMillis(q);
    }
  }

  // ---- Watchable pods ----

  predicate HoldsDevice(pod: RawPod) {
    exists i :: 0 <= i < |pod.containers| && pod.containers[i].devices != []
  }

  method HasDevice(pod: RawPod) returns (r: bool)
    ensures r == HoldsDevice(pod)
  {
    for i := 0 to |pod.containers|
      invariant forall j :: 0 <= j < i ==> pod.containers[j].devices == []
    {
      if |pod.containers[i].devices| > 0 {
        return true;
      }
    }
    return false;
  }

  predicate Watched(watch: string, podNamespace: string) {
    watch == "*" || watch == podNamespace
  }

  /** None when the API server does not answer; otherwise whether to watch the pod and whether its CPUs are exclusive. */
  method IsWatchable(watch: string, answer: Option<ApiPod>, podNamespace: string, hasDevice: bool) returns (r: Option<(bool, bool)>)
    ensures r.None? <==> answer.None?
    ensures answer.Some? ==> r.value.1 == Exclusive(answer.value)
                             && (r.value.0 <==> (watch == "*" || watch == podNamespace) && (Exclusive(answer.value) || hasDevice))
  {
    if answer == None {
      return None;
    }
    var isIntegralGuaranteed := HasExclusiveCPUs(answer.value);
    if watch == "*" && (isIntegralGuaranteed || hasDevice) {
      return Some((true, isIntegralGuaranteed));
    }
    return Some((watch == podNamespace && (isIntegralGuaranteed || hasDevice), isIntegralGuaranteed));
  }

  // ---- Resource entries ----

  function Formatted(ids: seq<int>): seq<string> {
    seq(|ids|, i requires 0 <= i < |ids| => FormatInt(ids[i]))
  }

  function CpuEntry(guaranteed: bool, c: RawContainer): seq<ResourceInfo> {
    if guaranteed && c.cpuIds != [] then [ResourceInfo(CPU, Formatted(c.cpuIds), [])] else []
  }

  function DeviceEntry(d: ContainerDevices): seq<ResourceInfo> {
    [ResourceInfo(d.resourceName, d.deviceIds, NodesOf(d.topology))]
  }

  function MemoryEntry(b: ContainerMemory): seq<ResourceInfo> {
    if b.size == 0 then [] else [ResourceInfo(b.memoryType, [FormatInt(b.size)], NodesOf(b.topology))]
  }

  function EntriesOf(guaranteed: bool, c: RawContainer): seq<ResourceInfo> {
    CpuEntry(guaranteed, c) + FlatMap(DeviceEntry, c.devices) + FlatMap(MemoryEntry, c.memory)
  }

  function KeptContainer(guaranteed: bool): RawContainer -> seq<ContainerResources> {
    (c: RawContainer) => if EntriesOf(guaranteed, c) == [] then [] else [ContainerResources(c.name, EntriesOf(guaranteed, c))]
  }

  function GuaranteedBy(api: ApiAnswers, pod: RawPod): bool {
    match api(pod.namespace, pod.name)
    case Some(answer) => Exclusive(answer)
    case None => false
  }

  predicate WatchedPod(watch: string, api: ApiAnswers, pod: RawPod) {
    Watched(watch, pod.namespace) && (GuaranteedBy(api, pod) || HoldsDevice(pod))
  }

  function KeptPod(watch: string, api: ApiAnswers): RawPod -> seq<PodResources> {
    (pod: RawPod) =>
      var containers := FlatMap(KeptContainer(GuaranteedBy(api, pod)), pod.containers);
      if !WatchedPod(watch, api, pod) || containers == [] then []
      else [PodResources(pod.name, pod.namespace, containers)]
  }

  predicate Answered(api: ApiAnswers, raws: seq<RawPod>) {
    forall i :: 0 <= i < |raws| ==> api(raws[i].namespace, raws[i].name).Some?
  }

  function Scanned(watch: string, api: ApiAnswers, raws: seq<RawPod>): seq<PodResources> {
    FlatMap(KeptPod(watch, api), raws)
  }

  method GetNumaNodeIds(topology: Option<seq<int>>) returns (ids: seq<int>)
    ensures ids == match topology case Some(nodes) => nodes case None => []
  {
    if topology == None {
      return [];
    }
    ids := [];
    for i := 0 to |topology.value|
      invariant ids == topology.value[..i]
    {
      ids := ids + [topology.value[i]];
    }
  }

  method ScanContainer(guaranteed: bool, c: RawContainer) returns (resources: seq<ResourceInfo>)
    ensures resources == EntriesOf(guaranteed, c)
  {
    hide FlatMap;
    resources := [];
    if guaranteed {
      if |c.cpuIds| > 0 {
        var resCPUs: seq<string> := [];
        for i := 0 to |c.cpuIds|
          invariant resCPUs == Formatted(c.cpuIds[..i])
        {
          resCPUs := resCPUs + [FormatInt(c.cpuIds[i])];
        }
        assert c.cpuIds[..|c.cpuIds|] == c.cpuIds;
        resources := [ResourceInfo(CPU, resCPUs, [])];
      }
    }
    FlatMapNone(DeviceEntry, resources, c.devices);
    for i := 0 to |c.devices|
      invariant resources == CpuEntry(guaranteed, c) + FlatMap(DeviceEntry, c.devices[..i])
    {
      FlatMapStep(DeviceEntry, c.devices, i);
      var ids := GetNumaNodeIds(c.devices[i].topology);
      resources := resources + [ResourceInfo(c.devices[i].resourceName, c.devices[i].deviceIds, ids)];
    }
    assert c.devices[..|c.devices|] == c.devices;
    ghost var before := resources;
    FlatMapNone(MemoryEntry, resources, c.memory);
    for i := 0 to |c.memory|
      invariant resources == before + FlatMap(MemoryEntry, c.memory[..i])
    {
      FlatMapStep(MemoryEntry, c.memory, i);
      if c.memory[i].size == 0 {
        continue;
      }
      var ids := GetNumaNodeIds(c.memory[i].topology);
      resources := resources + [ResourceInfo(c.memory[i].memoryType, [FormatInt(c.memory[i].size)], ids)];
    }
    assert c.memory[..|c.memory|] == c.memory;
  }

  method ScanContainers(guaranteed: bool, raw: seq<RawContainer>) returns (containers: seq<ContainerResources>)
    ensures containers == FlatMap(KeptContainer(guaranteed), raw)
  {
    hide FlatMap, EntriesOf;
    containers := [];
    FlatMapNone(KeptContainer(guaranteed), [], raw);
    for i := 0 to |raw|
      invariant containers == FlatMap(KeptContainer(guaranteed), raw[..i])
    {
      FlatMapStep(KeptContainer(guaranteed), raw, i);
      var resources := ScanContainer(guaranteed, raw[i]);
      if |resources| == 0 {
        assert containers + [] == containers;
        continue;
      }
      containers := containers + [ContainerResources(raw[i].name, resources)];
    }
    assert raw[..|raw|] == raw;
  }

  class PodResourcesScanner {
    const namespace: string
    const podFingerprint: bool
    const fingerprintName: string

    constructor (namespace: string, podFingerprint: bool, fingerprintName: string)
      ensures this.namespace == namespace && this.podFingerprint == podFingerprint && this.fingerprintName == fingerprintName
    {
      this.namespace := namespace;
      this.podFingerprint := podFingerprint;
      this.fingerprintName := fingerprintName;
    }

    /** The attributes of a scan: the fingerprint of a non-empty pod list, unless switched off or failing. */
    function AttributesOf(raws: seq<RawPod>, fingerprint: seq<RawPod> -> Option<string>): seq<AttributeInfo> {
      if podFingerprint && raws != [] then
        match fingerprint(raws)
        case Some(sign) => [AttributeInfo(fingerprintName, sign)]
        case None => []
      else []
    }

    /** listing is the podresources List answer, None on error; a scan fails exactly when the listing or one of the
        API answers does. */
    method Scan(listing: Option<seq<RawPod>>, api: ApiAnswers, fingerprint: seq<RawPod> -> Option<string>)
      returns (r: Option<ScanResponse>)
      ensures r.Some? <==> listing.Some? && Answered(api, listing.value)
      ensures r.Some? ==> r.value == ScanResponse(Scanned(namespace, api, listing.value), AttributesOf(listing.value, fingerprint))
    {
      hide FlatMap, KeptContainer, Exclusive;
      if listing == None {
        return None;
      }
      var raws := listing.value;
      var attributes: seq<AttributeInfo> := [];
      if podFingerprint && |raws| > 0 {
        var sign := fingerprint(raws);
        if sign.Some? {
          attributes := attributes + [AttributeInfo(fingerprintName, sign.value)];
        }
      }
      var pods: seq<PodResources> := [];
      ghost var keep := KeptPod(namespace, api);
      FlatMapNone(keep, [], raws);
      for i := 0 to |raws|
        invariant forall j :: 0 <= j < i ==> api(raws[j].namespace, raws[j].name).Some?
        invariant pods == FlatMap(keep, raws[..i])
      {
        FlatMapStep(keep, raws, i);
        assert pods + [] == pods;
        var hasDevice := HasDevice(raws[i]);
        var answer := api(raws[i].namespace, raws[i].name);
        var decision := IsWatchable(namespace, answer, raws[i].namespace, hasDevice);
        if decision == None {
          return None;
        }
        var (isWatchable, isIntegralGuaranteed) := decision.value;
        if !isWatchable {
          continue;
        }
        var containers := ScanContainers(isIntegralGuaranteed, raws[i].containers);
        if |containers| == 0 {
          continue;
        }
        pods := pods + [PodResources(raws[i].name, raws[i].namespace, containers)];
      }
      assert raws[..|raws|] == raws;
      return Some(ScanResponse(pods, attributes));
    }
  }

  /** A scan reports the fingerprint of the whole listing, watched or not, when it is switched on, the listing is not
      empty and the hash succeeds; and nothing else. */
  lemma {:induction false} FingerprintReported(scanner: PodResourcesScanner, raws: seq<RawPod>,
                                               fingerprint: seq<RawPod> -> Option<string>, a: AttributeInfo)
    ensures a in scanner.AttributesOf(raws, fingerprint)
       <==> scanner.podFingerprint && |raws| > 0 && a.name == scanner.fingerprintName && fingerprint(raws) == Some(a.value)
    ensures |scanner.AttributesOf(raws, fingerprint)| <= 1
  {
  }
}
