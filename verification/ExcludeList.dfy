/** The exclude list of a node: the resources configured for it by name and those configured for every node. */
module ExcludeList {

  /** The configuration is visited in map iteration order, which does not show in the result. */
  method NewExcludeResourceList(resMap: map<string, seq<string>>, nodeName: string) returns (excludeList: set<string>)
    ensures forall r :: r in excludeList <==> exists k :: k in resMap && (k == nodeName || k == "*") && r in resMap[k]
  {
    excludeList := {};
    var remaining := resMap.Keys;
    while remaining != {}
      invariant remaining <= resMap.Keys
      invariant forall r :: r in excludeList <==> exists k :: k in resMap.Keys - remaining && (k == nodeName || k == "*") && r in resMap[k]
      decreases remaining
    {
      var k :| k in remaining;
      if k == nodeName || k == "*" {
        excludeList := excludeList + set r | r in resMap[k];
      }
      remaining := remaining - {k};
    }
  }
}
