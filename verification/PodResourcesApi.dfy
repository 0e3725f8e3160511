/** The inputs of the resource monitor: the hardware topology and the messages of the kubelet podresources API. */
module PodResourcesApi {
  import opened Common

  type uint64 = x: int | 0 <= x < TWO_TO_64

  /** A NUMA node: its ID, the logical processors of each of its cores, and its distances to the other nodes. */
  datatype TopologyNode = TopologyNode(id: int, cores: seq<seq<int>>, distances: seq<int>)

  /** topology is None when the message carries no topology; otherwise it lists NUMA node IDs. */
  datatype ContainerDevices =
    ContainerDevices(resourceName: string, deviceIds: seq<string>, topology: Option<seq<int>>)

  datatype ContainerMemory = ContainerMemory(memoryType: string, size: uint64, topology: Option<seq<int>>)

  datatype AllocatableResources =
    AllocatableResources(devices: seq<ContainerDevices>, cpuIds: seq<int>, memory: seq<ContainerMemory>)

  datatype ResourceInfo = ResourceInfo(name: string, data: seq<string>, numaNodeIds: seq<int>)

  datatype ContainerResources = ContainerResources(name: string, resources: seq<ResourceInfo>)

  datatype PodResources = PodResources(name: string, namespace: string, containers: seq<ContainerResources>)

  const CPU := "cpu"
  const MEMORY := "memory"
  const HUGEPAGES_PREFIX := "hugepages-"

  /** Resources counted in bytes per NUMA node rather than by device ID. */
  predicate IsMemoryLike(name: string) {
    name == MEMORY || HUGEPAGES_PREFIX <= name
  }

  function NodesOf(topology: Option<seq<int>>): seq<int> {
    match topology
    case Some(nodes) => nodes
    case None => []
  }

  function Same(core: seq<int>): seq<int> {
    core
  }

  /** All logical processors of a node, in the order its cores list them. */
  function Processors(node: TopologyNode): seq<int> {
    FlatMap(Same, node.cores)
  }

  /** Memory itself and huge pages of any size. */
  lemma {:induction false} MemoryNames(name: string)
    ensures IsMemoryLike(name) <==> name == "memory" || exists size: string :: name == "hugepages-" + size
  {
    if HUGEPAGES_PREFIX <= name {
      assert name == "hugepages-" + name[|HUGEPAGES_PREFIX|..];
    }
  }
}
