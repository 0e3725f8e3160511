/** The deprecated TopologyPolicies value computed from the kubelet's topology manager policy and scope. */
module TopologyPolicy {

  const POD_SCOPE := "pod"
  const CONTAINER_SCOPE := "container"

  const BEST_EFFORT_POLICY := "best-effort"
  const RESTRICTED_POLICY := "restricted"
  const SINGLE_NUMA_NODE_POLICY := "single-numa-node"

  const NONE := "None"

  function DetectPodScope(policy: string): string {
    if policy == SINGLE_NUMA_NODE_POLICY then "SingleNUMANodePodLevel"
    else if policy == RESTRICTED_POLICY then "RestrictedPodLevel"
    else if policy == BEST_EFFORT_POLICY then "BestEffortPodLevel"
    else NONE
  }

  function DetectContainerScope(policy: string): string {
    if policy == SINGLE_NUMA_NODE_POLICY then "SingleNUMANodeContainerLevel"
    else if policy == RESTRICTED_POLICY then "RestrictedContainerLevel"
    else if policy == BEST_EFFORT_POLICY then "BestEffortContainerLevel"
    else NONE
  }

  function DetectTopologyPolicy(policy: string, scope: string): string {
    if scope == POD_SCOPE then DetectPodScope(policy)
    else if scope == CONTAINER_SCOPE then DetectContainerScope(policy)
    else NONE
  }

  /** Any value but None determines both the policy and the scope it was computed from. */
  lemma {:induction false} DetectInjective(policy: string, scope: string, policy': string, scope': string)
    requires DetectTopologyPolicy(policy, scope) == DetectTopologyPolicy(policy', scope') != NONE
    ensures policy == policy' && scope == scope'
  {
  }

  /** None is detected exactly for an unknown scope or a policy without a level. */
  lemma {:induction false} DetectNone(policy: string, scope: string)
    ensures DetectTopologyPolicy(policy, scope) == NONE
       <==> scope !in {POD_SCOPE, CONTAINER_SCOPE} || policy !in {SINGLE_NUMA_NODE_POLICY, RESTRICTED_POLICY, BEST_EFFORT_POLICY}
  {
  }

  /** The detected value of every policy with a level, in both scopes, and of every other scope. */
  lemma {:induction false} DetectExactly(policy: string, scope: string)
    ensures DetectTopologyPolicy("single-numa-node", "pod") == "SingleNUMANodePodLevel"
    ensures DetectTopologyPolicy("restricted", "pod") == "RestrictedPodLevel"
    ensures DetectTopologyPolicy("best-effort", "pod") == "BestEffortPodLevel"
    ensures DetectTopologyPolicy("single-numa-node", "container") == "SingleNUMANodeContainerLevel"
    ensures DetectTopologyPolicy("restricted", "container") == "RestrictedContainerLevel"
    ensures DetectTopologyPolicy("best-effort", "container") == "BestEffortContainerLevel"
    ensures scope !in {"pod", "container"} || policy !in {"single-numa-node", "restricted", "best-effort"}
      ==> DetectTopologyPolicy(policy, scope) == "None"
  {
  }
}
