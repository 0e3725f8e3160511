/** Attribute lists and the two implementations of merging by name: the copying helper package, on slices, and the
    updater's in-place update through a pointer to a list. */
module Attributes {
  import opened Common

  datatype AttributeInfo = AttributeInfo(name: string, value: string)

  // ---- Specification ----

  /** The position of the first attribute with this name, or the length of the list. */
  function IndexOf(s: seq<AttributeInfo>, name: string): (i: nat)
    ensures i <= |s|
    ensures i < |s| ==> s[i].name == name
    ensures forall j :: 0 <= j < i ==> s[j].name != name
  {
    if s == [] then 0 else if s[0].name == name then 0 else 1 + IndexOf(s[1..], name)
  }

  predicate HasName(s: seq<AttributeInfo>, name: string) {
    IndexOf(s, name) < |s|
  }

  function Lookup(s: seq<AttributeInfo>, name: string): Option<string> {
    if HasName(s, name) then Some(s[IndexOf(s, name)].value) else None
  }

  function LastValue(s: seq<AttributeInfo>, name: string): Option<string> {
    if s == [] then None
    else if s[|s| - 1].name == name then Some(s[|s| - 1].value)
    else LastValue(s[..|s| - 1], name)
  }

  function Upsert(s: seq<AttributeInfo>, a: AttributeInfo): seq<AttributeInfo> {
    if HasName(s, a.name) then s[IndexOf(s, a.name) := a] else s + [a]
  }

  function UpsertAll(s: seq<AttributeInfo>, us: seq<AttributeInfo>): seq<AttributeInfo> {
    if us == [] then s else Upsert(UpsertAll(s, us[..|us| - 1]), us[|us| - 1])
  }

  function Inserted(s: seq<AttributeInfo>, a: AttributeInfo): seq<AttributeInfo> {
    if a.name == "" then s else Upsert(s, a)
  }

  function InsertAll(s: seq<AttributeInfo>, us: seq<AttributeInfo>): seq<AttributeInfo> {
    if us == [] then s else Inserted(InsertAll(s, us[..|us| - 1]), us[|us| - 1])
  }

  /** The two lists Merge builds: the existing attributes with new values, and the attributes with new names. */
  function MergeSteps(e: seq<AttributeInfo>, us: seq<AttributeInfo>): (seq<AttributeInfo>, seq<AttributeInfo>) {
    if us == [] then (e, [])
    else
      var (ret, delta) := MergeSteps(e, us[..|us| - 1]);
      var a := us[|us| - 1];
      if HasName(ret, a.name) then (ret[IndexOf(ret, a.name) := a], delta) else (ret, delta + [a])
  }

  function Merged(e: seq<AttributeInfo>, us: seq<AttributeInfo>): seq<AttributeInfo> {
    MergeSteps(e, us).0 + MergeSteps(e, us).1
  }

  function Without(s: seq<AttributeInfo>, name: string): seq<AttributeInfo> {
    if s == [] then [] else Without(s[..|s| - 1], name) + if s[|s| - 1].name == name then [] else [s[|s| - 1]]
  }

  // ---- The helper package, on slices ----

  /** The pointer the Go function returns is the position of its target, None for nil. */
  method FindAttrByName(attributes: array<AttributeInfo>, name: string) returns (found: Option<nat>)
    ensures found == if HasName(attributes[..], name) then Some(IndexOf(attributes[..], name)) else None
  {
    for idx := 0 to attributes.Length
      invariant forall j :: 0 <= j < idx ==> attributes[j].name != name
    {
      if attributes[idx].name == name {
        FirstIndex(attributes[..], name, idx);
        return Some(idx);
      }
    }
    return None;
  }

  lemma {:induction false} FirstIndex(s: seq<AttributeInfo>, name: string, i: nat)
    requires i <= |s| && (forall j :: 0 <= j < i ==> s[j].name != name) && (i < |s| ==> s[i].name == name)
    ensures IndexOf(s, name) == i
  {
  }

  method Get(attributes: array<AttributeInfo>, name: string) returns (attr: AttributeInfo, ok: bool)
    ensures ok <==> HasName(attributes[..], name)
    ensures attr == match Lookup(attributes[..], name) case Some(v) => AttributeInfo(name, v) case None => AttributeInfo("", "")
  {
    var found := FindAttrByName(attributes, name);
    if found == None {
      return AttributeInfo("", ""), false;
    }
    return attributes[found.value], true;
  }

  method DeepCopy(attributes: array<AttributeInfo>) returns (copy: array<AttributeInfo>)
    ensures fresh(copy) && copy[..] == attributes[..]
  {
    copy := new AttributeInfo[attributes.Length](i requires 0 <= i < attributes.Length reads attributes => attributes[i]);
  }

  method Append(attributes: array<AttributeInfo>, more: array<AttributeInfo>) returns (r: array<AttributeInfo>)
    ensures fresh(r) && r[..] == attributes[..] + more[..]
  {
    var n := attributes.Length;
    r := new AttributeInfo[n + more.Length](i requires 0 <= i < n + more.Length reads attributes, more =>
      if i < n then attributes[i] else more[i - n]);
    assert r[..n] == attributes[..] && r[n..] == more[..];
  }

  method AppendOne(attributes: array<AttributeInfo>, attr: AttributeInfo) returns (r: array<AttributeInfo>)
    ensures fresh(r) && r[..] == attributes[..] + [attr]
  {
    var one := new AttributeInfo[1](_ => attr);
    assert one[..] == [attr];
    r := Append(attributes, one);
  }

  /** Returns the input itself for an empty name; otherwise a new list, the input unchanged. */
  method Insert(attributes: array<AttributeInfo>, attr: AttributeInfo) returns (r: array<AttributeInfo>)
    ensures r[..] == Inserted(attributes[..], attr)
    ensures if attr.name == "" then r == attributes else fresh(r)
  {
    if attr.name == "" {
      return attributes;
    }
    var attrs := DeepCopy(attributes);
    var existing := FindAttrByName(attrs, attr.name);
    if existing == None {
      r := AppendOne(attrs, attr);
      return;
    }
    attrs[existing.value] := attrs[existing.value].(value := attr.value);
    assert attrs[..] == attributes[..][existing.value := attr];
    return attrs;
  }

  method Merge(existing: array<AttributeInfo>, updated: array<AttributeInfo>) returns (r: array<AttributeInfo>)
    ensures fresh(r) && r[..] == Merged(existing[..], updated[..])
  {
    ghost var e, us := existing[..], updated[..];
    var ret := DeepCopy(existing);
    var delta := new AttributeInfo[0](_ => AttributeInfo("", ""));
    assert delta[..] == [];
    for i := 0 to updated.Length
      invariant fresh(ret) && fresh(delta) && ret != delta
      invariant existing[..] == e && updated[..] == us
      invariant (ret[..], delta[..]) == MergeSteps(e, us[..i])
    {
      var attr := updated[i];
      assert us[..i + 1][..i] == us[..i];
      var found := FindAttrByName(ret, attr.name);
      if found != None {
        ghost var before := ret[..];
        ret[found.value] := ret[found.value].(value := attr.value);
        assert ret[..] == before[found.value := attr];
      } else {
        delta := AppendOne(delta, attr);
      }
    }
    assert us[..|us|] == us;
    r := Append(ret, delta);
  }

  method DeleteAll(attributes: array<AttributeInfo>, name: string) returns (r: array<AttributeInfo>)
    ensures fresh(r) && r[..] == Without(attributes[..], name)
  {
    ghost var s := attributes[..];
    r := new AttributeInfo[0](_ => AttributeInfo("", ""));
    assert r[..] == [];
    for i := 0 to attributes.Length
      invariant fresh(r) && attributes[..] == s && r[..] == Without(s[..i], name)
    {
      assert s[..i + 1][..i] == s[..i];
      if attributes[i].name == name {
        assert Without(s[..i], name) + [] == Without(s[..i], name);
        continue;
      }
      r := AppendOne(r, attributes[i]);
    }
    assert s[..|s|] == s;
  }

  // ---- The updater's in-place update ----

  /** The attribute list of a stored object, updated through a pointer to it. */
  class AttributeList {
    var items: seq<AttributeInfo>

    constructor (items: seq<AttributeInfo>)
      ensures this.items == items
    {
      this.items := items;
    }
  }

  method UpdateAttribute(list: AttributeList?, attr: AttributeInfo)
    modifies list
    ensures list != null ==> list.items == Upsert(old(list.items), attr)
  {
    if list == null {
      return;
    }
    for idx := 0 to |list.items|
      invariant list.items == old(list.items)
      invariant forall j :: 0 <= j < idx ==> list.items[j].name != attr.name
    {
      if list.items[idx].name == attr.name {
        FirstIndex(list.items, attr.name, idx);
        list.items := list.items[idx := list.items[idx].(value := attr.value)];
        return;
      }
    }
    list.items := list.items + [attr];
  }

  method UpdateAttributes(lhs: AttributeList, rhs: seq<AttributeInfo>)
    modifies lhs
    ensures lhs.items == UpsertAll(old(lhs.items), rhs)
  {
    for i := 0 to |rhs|
      invariant lhs.items == UpsertAll(old(lhs.items), rhs[..i])
    {
      assert rhs[..i + 1][..i] == rhs[..i];
      UpdateAttribute(lhs, rhs[i]);
    }
    assert rhs[..|rhs|] == rhs;
  }

  // ---- Lookups after an update ----

  lemma {:induction false} HasNameExists(s: seq<AttributeInfo>, name: string)
    ensures HasName(s, name) <==> exists i :: 0 <= i < |s| && s[i].name == name
  {
  }

  /** Lists with the same names in the same places find a name at the same place. */
  lemma {:induction false} SameNamesSameIndex(s: seq<AttributeInfo>, t: seq<AttributeInfo>, name: string)
    requires |s| == |t| && forall i :: 0 <= i < |s| ==> s[i].name == t[i].name
    ensures IndexOf(s, name) == IndexOf(t, name)
  {
  }

  lemma {:induction false} IndexOfAppend(s: seq<AttributeInfo>, t: seq<AttributeInfo>, name: string)
    ensures IndexOf(s + t, name) == if HasName(s, name) then IndexOf(s, name) else |s| + IndexOf(t, name)
  {
    var i := if HasName(s, name) then IndexOf(s, name) else |s| + IndexOf(t, name);
    forall j | 0 <= j < i
      ensures (s + t)[j].name != name
    {
      if j >= |s| {
        assert (s + t)[j] == t[j - |s|];
      }
    }
    FirstIndex(s + t, name, i);
  }

  lemma {:induction false} UpsertLookup(s: seq<AttributeInfo>, a: AttributeInfo, name: string)
    ensures Lookup(Upsert(s, a), name) == if name == a.name then Some(a.value) else Lookup(s, name)
    ensures |s| <= |Upsert(s, a)| && forall i :: 0 <= i < |s| ==> Upsert(s, a)[i].name == s[i].name
  {
    if HasName(s, a.name) {
      SameNamesSameIndex(s, Upsert(s, a), name);
    } else {
      IndexOfAppend(s, [a], name);
    }
  }

  /** A full update: every updated name has its last value, every other name its old one, and the existing names
      stay where they were. */
  lemma {:induction false} UpsertAllLookup(s: seq<AttributeInfo>, us: seq<AttributeInfo>, name: string)
    ensures Lookup(UpsertAll(s, us), name) == if LastValue(us, name).Some? then LastValue(us, name) else Lookup(s, name)
    ensures |s| <= |UpsertAll(s, us)| && forall i :: 0 <= i < |s| ==> UpsertAll(s, us)[i].name == s[i].name
  {
    if us != [] {
      UpsertAllLookup(s, us[..|us| - 1], name);
      UpsertLookup(UpsertAll(s, us[..|us| - 1]), us[|us| - 1], name);
    }
  }

  lemma {:induction false} LastValueMember(us: seq<AttributeInfo>, name: string)
    ensures LastValue(us, name).Some? <==> HasName(us, name)
  {
    HasNameExists(us, name);
    if us != [] {
      var front := us[..|us| - 1];
      LastValueMember(front, name);
      HasNameExists(front, name);
      if HasName(front, name) {
        assert us[IndexOf(front, name)].name == name;
      }
    }
  }

  /** The attributes whose names are foreign to the update, in order. */
  function Foreign(s: seq<AttributeInfo>, owned: set<string>): seq<AttributeInfo> {
    if s == [] then []
    else Foreign(s[..|s| - 1], owned) + if s[|s| - 1].name in owned then [] else [s[|s| - 1]]
  }

  /** Replacing an owned attribute by another of the same name does not show. */
  lemma {:induction false} ForeignReplaced(s: seq<AttributeInfo>, i: nat, a: AttributeInfo, owned: set<string>)
    requires i < |s| && s[i].name == a.name && a.name in owned
    ensures Foreign(s[i := a], owned) == Foreign(s, owned)
  {
    var last := |s| - 1;
    if i < last {
      ForeignReplaced(s[..last], i, a, owned);
      assert s[i := a][..last] == s[..last][i := a];
    } else {
      assert s[i := a][..last] == s[..last];
    }
  }

  /** An update of owned names leaves the foreign attributes, their values and their order alone. */
  lemma {:induction false} ForeignUntouched(s: seq<AttributeInfo>, us: seq<AttributeInfo>, owned: set<string>)
    requires forall i :: 0 <= i < |us| ==> us[i].name in owned
    ensures Foreign(UpsertAll(s, us), owned) == Foreign(s, owned)
  {
    if us != [] {
      var front, a := us[..|us| - 1], us[|us| - 1];
      ForeignUntouched(s, front, owned);
      var t := UpsertAll(s, front);
      if HasName(t, a.name) {
        ForeignReplaced(t, IndexOf(t, a.name), a, owned);
      } else {
        assert (t + [a])[..|t|] == t;
      }
    }
  }

  // ---- Merge ----

  lemma {:induction false} MergeKeepsNames(e: seq<AttributeInfo>, us: seq<AttributeInfo>)
    ensures |MergeSteps(e, us).0| == |e| && forall i :: 0 <= i < |e| ==> MergeSteps(e, us).0[i].name == e[i].name
    ensures |e| <= |Merged(e, us)| && forall i :: 0 <= i < |e| ==> Merged(e, us)[i].name == e[i].name
  {
    if us != [] {
      MergeKeepsNames(e, us[..|us| - 1]);
    }
  }

  lemma {:induction false} NoName(name: string)
    ensures IndexOf([], name) == 0
  {
  }

  lemma {:induction false} IndexOfOne(a: AttributeInfo, name: string)
    ensures IndexOf([a], name) == if a.name == name then 0 else 1
  {
  }

  lemma {:induction false} MergeLookupParts(e: seq<AttributeInfo>, us: seq<AttributeInfo>, name: string)
    ensures var (ret, delta) := MergeSteps(e, us);
      && (HasName(e, name) ==> Lookup(ret, name) == (if LastValue(us, name).Some? then LastValue(us, name) else Lookup(e, name)))
      && Lookup(delta, name) == if HasName(e, name) then None else Lookup(us, name)
  {
    hide IndexOf;
    NoName(name);
    if us != [] {
      var front, a := us[..|us| - 1], us[|us| - 1];
      MergeLookupParts(e, front, name);
      MergeKeepsNames(e, front);
      var (ret, delta) := MergeSteps(e, front);
      SameNamesSameIndex(e, ret, name);
      SameNamesSameIndex(e, ret, a.name);
      assert us == front + [a];
      IndexOfOne(a, name);
      IndexOfAppend(front, [a], name);
      IndexOfAppend(delta, [a], name);
      if HasName(ret, a.name) {
        SameNamesSameIndex(ret, ret[IndexOf(ret, a.name) := a], name);
      }
    }
  }

  /** Exact lookup law of Merge: the last update wins for a name that existed, the first for a new name. */
  lemma {:induction false} MergeLookup(e: seq<AttributeInfo>, us: seq<AttributeInfo>, name: string)
    ensures Lookup(Merged(e, us), name)
         == if !HasName(us, name) then Lookup(e, name) else if HasName(e, name) then LastValue(us, name) else Lookup(us, name)
  {
    var (ret, delta) := MergeSteps(e, us);
    MergeLookupParts(e, us, name);
    MergeKeepsNames(e, us);
    SameNamesSameIndex(e, ret, name);
    IndexOfAppend(ret, delta, name);
    LastValueMember(us, name);
  }

  // ---- Where the two implementations agree ----

  /** No name that e lacks occurs twice in us. */
  ghost predicate NewNamesOnce(e: seq<AttributeInfo>, us: seq<AttributeInfo>) {
    forall i, j :: 0 <= i < j < |us| && !HasName(e, us[i].name) ==> us[i].name != us[j].name
  }

  lemma {:induction false} NewNamesSnoc(e: seq<AttributeInfo>, us: seq<AttributeInfo>)
    requires us != []
    ensures var front, a := us[..|us| - 1], us[|us| - 1];
      NewNamesOnce(e, us) <==> NewNamesOnce(e, front) && (HasName(e, a.name) || !HasName(front, a.name))
  {
  }

  lemma {:induction false} DeltaNames(e: seq<AttributeInfo>, us: seq<AttributeInfo>, name: string)
    ensures HasName(MergeSteps(e, us).1, name) <==> !HasName(e, name) && HasName(us, name)
  {
    MergeLookupParts(e, us, name);
    assert HasName(MergeSteps(e, us).1, name) <==> Lookup(MergeSteps(e, us).1, name).Some?;
  }

  lemma {:induction false} UpsertAllIsMerge(e: seq<AttributeInfo>, us: seq<AttributeInfo>)
    requires NewNamesOnce(e, us)
    ensures UpsertAll(e, us) == Merged(e, us)
  {
    if us != [] {
      var front, a := us[..|us| - 1], us[|us| - 1];
      NewNamesSnoc(e, us);
      UpsertAllIsMerge(e, front);
      var (ret, delta) := MergeSteps(e, front);
      MergeKeepsNames(e, front);
      SameNamesSameIndex(e, ret, a.name);
      IndexOfAppend(ret, delta, a.name);
      DeltaNames(e, front, a.name);
      if HasName(ret, a.name) {
        assert (ret + delta)[IndexOf(ret, a.name) := a] == ret[IndexOf(ret, a.name) := a] + delta;
      } else {
        assert ret + delta + [a] == ret + (delta + [a]);
      }
    }
  }

  lemma {:induction false} MergeIsLonger(e: seq<AttributeInfo>, us: seq<AttributeInfo>)
    ensures |UpsertAll(e, us)| <= |Merged(e, us)|
    ensures !NewNamesOnce(e, us) ==> |UpsertAll(e, us)| < |Merged(e, us)|
  {
    if us != [] {
      var front, a := us[..|us| - 1], us[|us| - 1];
      NewNamesSnoc(e, us);
      MergeIsLonger(e, front);
      MergeKeepsNames(e, front);
      SameNamesSameIndex(e, MergeSteps(e, front).0, a.name);
      UpsertAllLookup(e, front, a.name);
      LastValueMember(front, a.name);
      assert HasName(UpsertAll(e, front), a.name) <==> Lookup(UpsertAll(e, front), a.name).Some?;
      assert HasName(e, a.name) <==> Lookup(e, a.name).Some?;
    }
  }

  /** The in-place update equals Merge exactly when no name absent from the existing list is updated twice. */
  lemma {:induction false} UpdateEqualsMergeExactly(e: seq<AttributeInfo>, us: seq<AttributeInfo>)
    ensures UpsertAll(e, us) == Merged(e, us) <==> NewNamesOnce(e, us)
  {
    MergeIsLonger(e, us);
    if NewNamesOnce(e, us) {
      UpsertAllIsMerge(e, us);
    }
  }

  /** An update of another name commutes with a new value for the unnamed attribute at position i. */
  lemma {:induction false} UpsertPastUnnamed(x: seq<AttributeInfo>, a: AttributeInfo, i: nat, b: AttributeInfo)
    requires i < |x| && IndexOf(x, "") == i && a.name != "" && b.name == ""
    ensures i < |Upsert(x, a)| && Upsert(x, a)[i] == x[i] && IndexOf(Upsert(x, a), "") == i
    ensures Upsert(x[i := b], a) == Upsert(x, a)[i := b]
  {
    SameNamesSameIndex(x, x[i := b], a.name);
    if HasName(x, a.name) {
      var k := IndexOf(x, a.name);
      SameNamesSameIndex(x, x[k := a], "");
      assert x[i := b][k := a] == x[k := a][i := b];
    } else {
      IndexOfAppend(x, [a], "");
      assert x[i := b] + [a] == (x + [a])[i := b];
    }
  }

  /** Inserting every update but the unnamed ones, against the in-place update: with an unnamed attribute at position
      i, the two differ there only. */
  lemma {:induction false} UnnamedOnly(e: seq<AttributeInfo>, us: seq<AttributeInfo>)
    requires HasName(e, "")
    ensures
      var i := IndexOf(e, "");
      var v := if LastValue(us, "").Some? then LastValue(us, "").value else e[i].value;
      && i < |InsertAll(e, us)| && InsertAll(e, us)[i] == e[i] && IndexOf(InsertAll(e, us), "") == i
      && UpsertAll(e, us) == InsertAll(e, us)[i := AttributeInfo("", v)]
  {
    hide IndexOf;
    var i := IndexOf(e, "");
    if us == [] {
      assert e[i := AttributeInfo("", e[i].value)] == e;
    } else {
      var front, a := us[..|us| - 1], us[|us| - 1];
      UnnamedOnly(e, front);
      var x := InsertAll(e, front);
      var v := if LastValue(front, "").Some? then LastValue(front, "").value else e[i].value;
      var b := AttributeInfo("", v);
      if a.name != "" {
        UpsertPastUnnamed(x, a, i, b);
      } else {
        SameNamesSameIndex(x, x[i := b], "");
        assert x[i := b][i := a] == x[i := AttributeInfo("", a.value)];
      }
    }
  }

  lemma {:induction false} NamedOnly(e: seq<AttributeInfo>, us: seq<AttributeInfo>)
    requires !HasName(us, "")
    ensures UpsertAll(e, us) == InsertAll(e, us)
  {
    if us != [] {
      var front := us[..|us| - 1];
      assert us == front + [us[|us| - 1]];
      IndexOfAppend(front, [us[|us| - 1]], "");
      NamedOnly(e, front);
    }
  }

  lemma {:induction false} InsertAllUnnamed(e: seq<AttributeInfo>, us: seq<AttributeInfo>)
    ensures Lookup(InsertAll(e, us), "") == Lookup(e, "")
  {
    if us != [] {
      InsertAllUnnamed(e, us[..|us| - 1]);
      UpsertLookup(InsertAll(e, us[..|us| - 1]), us[|us| - 1], "");
    }
  }

  /** The in-place update equals inserting one by one exactly when the update has no empty name, or its last value
      for the empty name is the one already there. */
  lemma {:induction false} UpdateEqualsInsertsExactly(e: seq<AttributeInfo>, us: seq<AttributeInfo>)
    ensures UpsertAll(e, us) == InsertAll(e, us) <==> !HasName(us, "") || LastValue(us, "") == Lookup(e, "")
  {
    LastValueMember(us, "");
    UpsertAllLookup(e, us, "");
    InsertAllUnnamed(e, us);
    if !HasName(us, "") {
      NamedOnly(e, us);
    } else if LastValue(us, "") == Lookup(e, "") {
      UnnamedOnly(e, us);
    }
  }

  /** After deleting a name, it is gone and every other lookup is as before. */
  lemma {:induction false} WithoutLookup(s: seq<AttributeInfo>, deleted: string, name: string)
    ensures Lookup(Without(s, deleted), name) == if name == deleted then None else Lookup(s, name)
  {
    if s != [] {
      var front, last := s[..|s| - 1], s[|s| - 1];
      WithoutLookup(front, deleted, name);
      assert s == front + [last];
      IndexOfAppend(front, [last], name);
      IndexOfAppend(Without(front, deleted), [last], name);
      assert Without(front, deleted) + [] == Without(front, deleted);
      assert HasName(front, name) <==> Lookup(front, name).Some?;
      assert HasName(Without(front, deleted), name) <==> Lookup(Without(front, deleted), name).Some?;
    }
  }

  /** DeleteAll works attribute by attribute: it keeps each with another name, once and in place, and drops the others. */
  lemma {:induction false} WithoutInOrder(a: seq<AttributeInfo>, b: seq<AttributeInfo>, x: AttributeInfo, name: string)
    ensures Without(a + [x] + b, name) == Without(a, name) + (if x.name == name then [] else [x]) + Without(b, name)
    ensures Without([], name) == []
    decreases |b|
  {
    var all := a + [x] + b;
    if b == [] {
      assert all == a + [x] && all[..|all| - 1] == a;
    } else {
      assert all[..|all| - 1] == a + [x] + b[..|b| - 1];
      WithoutInOrder(a, b[..|b| - 1], x, name);
    }
  }

  /** The value an update gives a name is that of its last entry with the name. */
  lemma {:induction false} LastValueExactly(us: seq<AttributeInfo>, name: string, value: string)
    ensures LastValue(us, name) == Some(value)
       <==> exists i :: 0 <= i < |us| && us[i] == AttributeInfo(name, value) && forall j :: i < j < |us| ==> us[j].name != name
  {
    if us != [] {
      var front, last := us[..|us| - 1], us[|us| - 1];
      LastValueExactly(front, name, value);
      if last.name != name && LastValue(us, name) == Some(value) {
        var i :| 0 <= i < |front| && front[i] == AttributeInfo(name, value) && forall j :: i < j < |front| ==> front[j].name != name;
        assert us[i] == AttributeInfo(name, value) && forall j :: i < j < |us| ==> us[j].name != name;
      }
      if i :| 0 <= i < |us| && us[i] == AttributeInfo(name, value) && forall j :: i < j < |us| ==> us[j].name != name {
        if i < |front| {
          assert us[|front|].name != name;
          assert front[i] == AttributeInfo(name, value) && forall j :: i < j < |front| ==> front[j].name != name;
        }
      }
    }
  }
}
