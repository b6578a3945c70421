/** internal/api/nodegroup.go when allocations and releases do not overlap: node groups claim worker
    nodes from a fixed pool by labelling them, and deleting a group gives them back. */
module NodePool {
  import opened Text
  import opened Rbac

  type Labels = map<string, string>

  const NODEGROUP_LABEL := "eks.amazonaws.com/nodegroup"
  const CONTROL_PLANE_LABEL := "node-role.kubernetes.io/control-plane"
  const EKS_PREFIX := "eks.amazonaws.com/"

  datatype Status = Creating | Active | Degraded | CreateFailed

  datatype Issue = NodeCreationFailure | InternalFailure

  /** The answers to a request for a new group. */
  datatype Answer = NoName | NoRole | Exists | NotActive | Accepted

  datatype Group = Group(status: Status, desired: int, labels: Labels, issue: Option<Issue>)

  /* ---------- Nodes on values ---------- */

  predicate IsFree(labels: Labels) {
    CONTROL_PLANE_LABEL !in labels && NODEGROUP_LABEL !in labels
  }

  ghost function FreeSet(nodes: map<string, Labels>): set<string> {
    set n | n in nodes && IsFree(nodes[n])
  }

  lemma FreeMembers(free: seq<string>, nodes: map<string, Labels>)
    ensures Elements(free) == FreeSet(nodes) ==>
              forall n :: n in free <==>
                n in nodes && "node-role.kubernetes.io/control-plane" !in nodes[n] && "eks.amazonaws.com/nodegroup" !in nodes[n]
  {
    assert forall n :: n in free <==> n in Elements(free);
  }

  ghost function Workers(nodes: map<string, Labels>): set<string> {
    set n | n in nodes && CONTROL_PLANE_LABEL !in nodes[n]
  }

  predicate OwnedBy(labels: Labels, group: string) {
    NODEGROUP_LABEL in labels && labels[NODEGROUP_LABEL] == group
  }

  ghost function NodesOf(nodes: map<string, Labels>, group: string): set<string> {
    set n | n in nodes && OwnedBy(nodes[n], group)
  }

  /** The labels a group stamps on its nodes; the user's labels are merged in last. */
  function Stamp(group: string, instanceType: string, region: string, user: Labels): Labels {
    map[NODEGROUP_LABEL := group,
        "eks.amazonaws.com/capacityType" := "ON_DEMAND",
        "eks.amazonaws.com/nodegroup-image" := "ami-eksuvia",
        "node.kubernetes.io/instance-type" := instanceType,
        "beta.kubernetes.io/instance-type" := instanceType,
        "topology.kubernetes.io/region" := region,
        "topology.kubernetes.io/zone" := region + "a",
        "failure-domain.beta.kubernetes.io/zone" := region + "a"] + user
  }

  /** A strategic merge patch: a key with no value is deleted. */
  function Patched(labels: Labels, add: Labels, remove: set<string>): Labels {
    (labels - remove) + add
  }

  function EksKeys(labels: Labels): set<string> {
    set k | k in labels && HasPrefix(k, EKS_PREFIX)
  }

  ghost function Stamped(nodes: map<string, Labels>, claim: set<string>, stamp: Labels): map<string, Labels> {
    map n | n in nodes :: if n in claim then nodes[n] + stamp else nodes[n]
  }

  function ReleasedLabels(labels: Labels, group: string): Labels {
    if OwnedBy(labels, group) then labels - EksKeys(labels) else labels
  }

  ghost function Released(nodes: map<string, Labels>, group: string): map<string, Labels> {
    map n | n in nodes :: ReleasedLabels(nodes[n], group)
  }

  /** User labels that leave the pool's own bookkeeping alone. */
  predicate Harmless(group: string, user: Labels) {
    CONTROL_PLANE_LABEL !in user && (NODEGROUP_LABEL in user ==> user[NODEGROUP_LABEL] == group)
  }

  lemma KeyFacts()
    ensures HasPrefix(NODEGROUP_LABEL, EKS_PREFIX) && !HasPrefix(CONTROL_PLANE_LABEL, EKS_PREFIX)
    ensures CONTROL_PLANE_LABEL != NODEGROUP_LABEL
  {
    assert CONTROL_PLANE_LABEL[0] == 'n';
  }

  lemma StampFacts(group: string, instanceType: string, region: string, user: Labels)
    ensures var s := Stamp(group, instanceType, region, user);
            && NODEGROUP_LABEL in s
            && s[NODEGROUP_LABEL] == (if NODEGROUP_LABEL in user then user[NODEGROUP_LABEL] else group)
            && (CONTROL_PLANE_LABEL in s <==> CONTROL_PLANE_LABEL in user)
  {
    assert |CONTROL_PLANE_LABEL| == 37 && CONTROL_PLANE_LABEL[0] == 'n' && CONTROL_PLANE_LABEL[4] == '-';
    assert "node.kubernetes.io/instance-type"[4] == '.';
    assert "eks.amazonaws.com/capacityType"[0] == 'e' && "eks.amazonaws.com/nodegroup-image"[0] == 'e' && NODEGROUP_LABEL[0] == 'e';
    assert "beta.kubernetes.io/instance-type"[0] == 'b' && "topology.kubernetes.io/region"[0] == 't';
    assert "topology.kubernetes.io/zone"[0] == 't' && "failure-domain.beta.kubernetes.io/zone"[0] == 'f';
    assert |"eks.amazonaws.com/capacityType"| != |NODEGROUP_LABEL| && |"eks.amazonaws.com/nodegroup-image"| != |NODEGROUP_LABEL|;
  }

  /* ---------- The labels in plain text ---------- */

  ghost predicate HasDefault(labels: Labels, user: Labels, key: string, value: string) {
    key !in user ==> key in labels && labels[key] == value
  }

  /** What a claimed node carries: the user's labels, a fixed set where the user set nothing, and
      otherwise the labels it had. */
  ghost predicate Labelled(before: Labels, after: Labels, group: string, instanceType: string, region: string, user: Labels) {
    && (forall k :: k in user ==> k in after && after[k] == user[k])
    && Defaults(after, user, group, instanceType, region)
    && forall k :: k !in user && !IsDefaultKey(k) ==> SameAt(before, after, k)
  }

  ghost predicate Defaults(labels: Labels, user: Labels, group: string, instanceType: string, region: string) {
    && HasDefault(labels, user, "eks.amazonaws.com/nodegroup", group)
    && HasDefault(labels, user, "eks.amazonaws.com/capacityType", "ON_DEMAND")
    && HasDefault(labels, user, "eks.amazonaws.com/nodegroup-image", "ami-eksuvia")
    && HasDefault(labels, user, "node.kubernetes.io/instance-type", instanceType)
    && HasDefault(labels, user, "beta.kubernetes.io/instance-type", instanceType)
    && HasDefault(labels, user, "topology.kubernetes.io/region", region)
    && HasDefault(labels, user, "topology.kubernetes.io/zone", region + "a")
    && HasDefault(labels, user, "failure-domain.beta.kubernetes.io/zone", region + "a")
  }

  predicate IsDefaultKey(k: string) {
    || k == "eks.amazonaws.com/nodegroup" || k == "eks.amazonaws.com/capacityType" || k == "eks.amazonaws.com/nodegroup-image"
    || k == "node.kubernetes.io/instance-type" || k == "beta.kubernetes.io/instance-type"
    || k == "topology.kubernetes.io/region" || k == "topology.kubernetes.io/zone" || k == "failure-domain.beta.kubernetes.io/zone"
  }

  predicate SameAt(before: Labels, after: Labels, k: string) {
    (k in after <==> k in before) && (k in before ==> after[k] == before[k])
  }

  /** The nodes `taken` are labelled, the others are as they were. */
  ghost predicate LabelledExactly(before: map<string, Labels>, after: map<string, Labels>, taken: set<string>,
                                  group: string, instanceType: string, region: string, user: Labels) {
    && after.Keys == before.Keys
    && forall n :: n in before ==>
         if n in taken then Labelled(before[n], after[n], group, instanceType, region, user) else after[n] == before[n]
  }

  /** A node after its release: the labels of its group's service are gone, if it was that group's. */
  ghost predicate Freed(before: Labels, after: Labels, group: string) {
    if "eks.amazonaws.com/nodegroup" in before && before["eks.amazonaws.com/nodegroup"] == group then
      && (forall k :: k in after <==> k in before && !("eks.amazonaws.com/" <= k))
      && (forall k :: k in after ==> after[k] == before[k])
    else after == before
  }

  ghost predicate FreedSome(before: map<string, Labels>, after: map<string, Labels>, group: string, all: bool) {
    && after.Keys == before.Keys
    && forall n :: n in before ==> Freed(before[n], after[n], group) || (!all && after[n] == before[n])
  }

  lemma ReleasedIsFreed(labels: Labels, group: string)
    ensures Freed(labels, ReleasedLabels(labels, group), group)
  {
  }

  lemma ReleasedAreFreed(before: map<string, Labels>, group: string)
    ensures FreedSome(before, Released(before, group), group, true)
    ensures forall done :: FreedSome(before, PartlyReleased(before, done, group), group, false)
  {
    forall labels: Labels ensures Freed(labels, ReleasedLabels(labels, group), group) {
      ReleasedIsFreed(labels, group);
    }
  }

  lemma DefaultKeysDiffer()
    ensures |"eks.amazonaws.com/capacityType"| == 30 && |"eks.amazonaws.com/nodegroup-image"| == 33
    ensures |"failure-domain.beta.kubernetes.io/zone"| == 38 && |"topology.kubernetes.io/region"| == 29
    ensures |"eks.amazonaws.com/nodegroup"| == |"topology.kubernetes.io/zone"| == 27
    ensures |"node.kubernetes.io/instance-type"| == |"beta.kubernetes.io/instance-type"| == 32
    ensures "eks.amazonaws.com/nodegroup"[0] != "topology.kubernetes.io/zone"[0]
    ensures "node.kubernetes.io/instance-type"[0] != "beta.kubernetes.io/instance-type"[0]
  {
  }

  lemma StampDefaults(group: string, instanceType: string, region: string)
    ensures var s := Stamp(group, instanceType, region, map[]);
            Defaults(s, map[], group, instanceType, region) && forall k :: k in s ==> IsDefaultKey(k)
  {
    DefaultKeysDiffer();
  }

  lemma DefaultsMerged(before: Labels, defaults: Labels, user: Labels, group: string, instanceType: string, region: string)
    requires Defaults(defaults, map[], group, instanceType, region)
    ensures Defaults(before + (defaults + user), user, group, instanceType, region)
  {
    forall key, value | HasDefault(defaults, map[], key, value) ensures HasDefault(before + (defaults + user), user, key, value) {
    }
  }

  lemma StampMerges(group: string, instanceType: string, region: string, user: Labels)
    ensures Stamp(group, instanceType, region, user) == Stamp(group, instanceType, region, map[]) + user
  {
  }

  lemma LabelledBy(before: Labels, defaults: Labels, user: Labels, group: string, instanceType: string, region: string)
    requires Defaults(defaults, map[], group, instanceType, region) && forall k :: k in defaults ==> IsDefaultKey(k)
    ensures Labelled(before, before + (defaults + user), group, instanceType, region, user)
  {
    DefaultsMerged(before, defaults, user, group, instanceType, region);
  }

  lemma StampLabels(before: Labels, group: string, instanceType: string, region: string, user: Labels)
    ensures Labelled(before, before + Stamp(group, instanceType, region, user), group, instanceType, region, user)
  {
    StampDefaults(group, instanceType, region);
    StampMerges(group, instanceType, region, user);
    LabelledBy(before, Stamp(group, instanceType, region, map[]), user, group, instanceType, region);
  }

  lemma StampedLabels(before: map<string, Labels>, taken: set<string>, group: string, instanceType: string, region: string, user: Labels)
    ensures LabelledExactly(before, Stamped(before, taken, Stamp(group, instanceType, region, user)), taken, group, instanceType, region, user)
  {
    forall n | n in before && n in taken
      ensures Labelled(before[n], before[n] + Stamp(group, instanceType, region, user), group, instanceType, region, user)
    {
      StampLabels(before[n], group, instanceType, region, user);
    }
  }

  ghost function SortedSeq(S: set<string>): (s: seq<string>)
    ensures StrictlySorted(s, Less) && Elements(s) == S
  {
    SortedSeqExists(S);
    var s :| StrictlySorted(s, Less) && Elements(s) == S;
    s
  }

  lemma SortedSeqExists(S: set<string>)
    ensures exists s :: StrictlySorted(s, Less) && Elements(s) == S
  {
    var s := SeqOfSet(S);
    SortStringsStrict(s);
    assert Elements(Sort(s, Less)) == S;
  }

  lemma SortedSeqUnique(s: seq<string>)
    requires StrictlySorted(s, Less)
    ensures s == SortedSeq(Elements(s))
  {
    StringOrder();
    assert forall x :: x in s <==> x in Elements(s);
    assert forall x :: x in SortedSeq(Elements(s)) <==> x in Elements(SortedSeq(Elements(s)));
    SortedUnique(s, SortedSeq(Elements(s)), Less);
  }

  lemma {:induction false} DistinctCount<T>(s: seq<T>)
    requires NoDuplicates(s)
    ensures |Elements(s)| == |s|
    decreases |s|
  {
    if |s| > 0 {
      var front, last := s[..|s| - 1], s[|s| - 1];
      assert s == front + [last];
      assert NoDuplicates(front);
      DistinctCount(front);
      AppendNew(front, last);
      assert last !in Elements(front);
    }
  }

  lemma StrictIsDistinct(s: seq<string>)
    requires StrictlySorted(s, Less)
    ensures NoDuplicates(s)
  {
    forall i, j | 0 <= i < j < |s| ensures s[i] != s[j] {
      LessTotal(s[i], s[i]);
    }
  }

  function Min(a: nat, b: nat): nat {
    if a < b then a else b
  }

  /** The nodes a new group takes: the first free ones by name. */
  ghost function Claim(nodes: map<string, Labels>, desired: nat): (claim: seq<string>)
    ensures |claim| == Min(desired, |FreeSet(nodes)|) && Elements(claim) <= FreeSet(nodes) && NoDuplicates(claim)
  {
    var free := SortedSeq(FreeSet(nodes));
    StrictIsDistinct(free);
    DistinctCount(free);
    free[..Min(desired, |free|)]
  }

  function StatusFor(desired: nat, free: nat): Status {
    if Min(desired, free) == 0 then CreateFailed
    else if free < desired then Degraded
    else Active
  }

  /* ---------- The code ---------- */

  /** A cluster's nodes, as its API server holds them, and its node groups, as the store holds them.
      When the API server is not `reliable` any call may fail; a failed patch may have been made. */
  class Pool {
    const reliable: bool
    const region: string
    var nodes: map<string, Labels>
    var groups: map<string, Group>

    constructor (reliable: bool, region: string, nodes: map<string, Labels>)
      ensures this.reliable == reliable && this.region == region && this.nodes == nodes && groups == map[]
    {
      this.reliable, this.region, this.nodes, this.groups := reliable, region, nodes, map[];
    }

    method Fails() returns (fails: bool)
      ensures reliable ==> !fails
    {
      fails := false;
      if !reliable {
        fails := *;
      }
    }

    method ListNodeNames() returns (names: Option<seq<string>>)
      ensures names.Some? ==> NoDuplicates(names.value) && Elements(names.value) == nodes.Keys
      ensures reliable ==> names.Some?
    {
      var fails := Fails();
      if fails {
        return None;
      }
      var list := [];
      var rest := nodes.Keys;
      while rest != {}
        invariant rest <= nodes.Keys && NoDuplicates(list) && Elements(list) == nodes.Keys - rest
        decreases rest
      {
        var n :| n in rest;
        rest := rest - {n};
        AppendNew(list, n);
        list := list + [n];
      }
      return Some(list);
    }

    method GetNodeLabels(node: string) returns (labels: Option<Labels>)
      requires node in nodes
      ensures labels.Some? ==> labels.value == nodes[node]
      ensures reliable ==> labels.Some?
    {
      var fails := Fails();
      return if fails then None else Some(nodes[node]);
    }

    method PatchNode(node: string, add: Labels, remove: set<string>) returns (ok: bool)
      requires node in nodes
      modifies this`nodes
      ensures nodes == old(nodes) || nodes == old(nodes)[node := Patched(old(nodes)[node], add, remove)]
      ensures ok ==> nodes == old(nodes)[node := Patched(old(nodes)[node], add, remove)]
      ensures reliable ==> ok
    {
      var lost := Fails();
      var applied := Fails();
      if !lost || applied {
        nodes := nodes[node := Patched(nodes[node], add, remove)];
      }
      ok := !lost;
    }

    /** Every free worker whose labels could be read, in name order. */
    method FreeWorkerNodes() returns (free: Option<seq<string>>)
      ensures free.Some? ==> StrictlySorted(free.value, Less) && Elements(free.value) <= FreeSet(nodes)
      ensures reliable ==> free.Some? && free.value == SortedSeq(FreeSet(nodes))
      ensures reliable ==>
                forall n :: n in free.value <==>
                  n in nodes && "node-role.kubernetes.io/control-plane" !in nodes[n] && "eks.amazonaws.com/nodegroup" !in nodes[n]
    {
      var names := ListNodeNames();
      if names.None? {
        return None;
      }
      var list := [];
      for i := 0 to |names.value|
        invariant NoDuplicates(list) && Elements(list) <= FreeSet(nodes) * Elements(names.value[..i])
        invariant reliable ==> Elements(list) == FreeSet(nodes) * Elements(names.value[..i])
      {
        var name := names.value[i];
        assert names.value[..i + 1] == names.value[..i] + [name];
        AppendNew(names.value[..i], name);
        assert name in nodes by { assert name in Elements(names.value); }
        var labels := GetNodeLabels(name);
        if labels.None? || CONTROL_PLANE_LABEL in labels.value || NODEGROUP_LABEL in labels.value {
          continue;
        }
        assert name !in Elements(list) by {
          assert forall j :: 0 <= j < i ==> names.value[j] != name;
        }
        AppendNew(list, name);
        list := list + [name];
      }
      assert names.value[..|names.value|] == names.value;
      assert FreeSet(nodes) * nodes.Keys == FreeSet(nodes);
      SortStringsStrict(list);
      var sorted := Sort(list, Less);
      assert Elements(sorted) == Elements(list);
      SortedSeqUnique(sorted);
      FreeMembers(sorted, nodes);
      return Some(sorted);
    }

    method SetStatus(name: string, status: Status, issue: Option<Issue>)
      modifies this`groups
      ensures groups == WithStatus(old(groups), name, status, issue)
    {
      if name in groups {
        groups := groups[name := groups[name].(status := status, issue := if issue.Some? then issue else groups[name].issue)];
      }
    }

    /** Labels the claimed nodes one by one, skipping failures; `done` are those that got the labels,
        the claimed ones and those whose patch was made but reported as failed. */
    method LabelNodes(claim: seq<string>, stamp: Labels) returns (claimed: seq<string>, ghost done: set<string>)
      requires NoDuplicates(claim) && forall n :: n in claim ==> n in nodes
      modifies this`nodes
      ensures NoDuplicates(claimed) && Elements(claimed) <= done <= Elements(claim) && nodes == Stamped(old(nodes), done, stamp)
      ensures reliable ==> claimed == claim && done == Elements(claim)
    {
      claimed := [];
      done := {};
      ghost var before := nodes;
      for i := 0 to |claim|
        invariant NoDuplicates(claimed) && Elements(claimed) <= done <= Elements(claim[..i])
        invariant nodes == Stamped(before, done, stamp)
        invariant reliable ==> claimed == claim[..i] && done == Elements(claim[..i])
      {
        var node := claim[i];
        assert claim[..i + 1] == claim[..i] + [node];
        AppendNew(claim[..i], node);
        assert node !in done by {
          assert forall j :: 0 <= j < i ==> claim[j] != node;
        }
        ghost var mid := nodes;
        assert node in before;
        var ok := PatchNode(node, stamp, {});
        StampOne(before, done, stamp, node);
        if nodes != mid {
          done := done + {node};
        }
        if !ok {
          continue;
        }
        done := done + {node};
        AppendNew(claimed, node);
        claimed := claimed + [node];
      }
      assert claim[..|claim|] == claim;
    }

    /** Claims up to `desired` free nodes for a group and settles its status. A negative size, which
        nothing rejects, is an invalid slice bound: the process crashes as soon as the nodes are listed. */
    method AllocateNodegroup(name: string, desired: int, instanceType: string) returns (crashed: bool)
      modifies this
      ensures crashed ==> desired < 0 && nodes == old(nodes) && groups == old(groups)
      ensures desired < 0 && !crashed ==>
                nodes == old(nodes) && groups == WithStatus(old(groups), name, CreateFailed, Some(InternalFailure))
      ensures desired < 0 && reliable ==> crashed
      ensures 0 <= desired ==> AllocationOutcome(old(nodes), old(groups), name, desired, StampFor(old(groups), name, instanceType), nodes, groups)
      ensures 0 <= desired && reliable ==>
                && nodes == Stamped(old(nodes), Elements(Claim(old(nodes), desired)), StampFor(old(groups), name, instanceType))
                && groups == SettledGroups(old(groups), name, desired, |FreeSet(old(nodes))|)
      ensures 0 <= desired ==> TakesSome(old(nodes), nodes, desired, name, instanceType, region, UserLabels(old(groups), name))
      ensures 0 <= desired && reliable ==>
                LabelledExactly(old(nodes), nodes, Elements(Claim(old(nodes), desired)), name, instanceType, region, UserLabels(old(groups), name))
    {
      var stamp := StampFor(groups, name, instanceType);
      var free := FreeWorkerNodes();
      if free.None? {
        SetStatus(name, CreateFailed, Some(InternalFailure));
        NobodyTaken(nodes, desired, name, instanceType, region, UserLabels(old(groups), name));
        return false;
      }
      var claim := free.value;
      var issue := None;
      if |free.value| < desired {
        issue := Some(NodeCreationFailure);
      } else if desired < 0 {
        return true;
      } else {
        claim := free.value[..desired];
      }
      assert claim == free.value[..|claim|];
      ClaimFacts(free.value, |claim|, FreeSet(nodes));
      ghost var full := reliable ==> claim == Claim(nodes, desired) && |free.value| == |FreeSet(nodes)|;
      assert full by {
        DistinctCount(free.value);
      }
      var claimed, done := LabelNodes(claim, stamp);
      var status := Active;
      if issue.Some? {
        status := Degraded;
      }
      if |claimed| == 0 {
        status := CreateFailed;
      }
      SetStatus(name, status, issue);
      DistinctCount(claimed);
      assert AllocatedWith(old(nodes), old(groups), name, desired, stamp, nodes, groups, free.value, done, Elements(claimed));
      OutcomeTakesSome(old(nodes), old(groups), name, desired, instanceType, region, UserLabels(old(groups), name), nodes, groups);
      StampedLabels(old(nodes), Elements(claim), name, instanceType, region, UserLabels(old(groups), name));
      return false;
    }

    function StampFor(groups: map<string, Group>, name: string, instanceType: string): Labels {
      Stamp(name, instanceType, region, UserLabels(groups, name))
    }

    /** Strips the labels of one node if it carries the group's name. */
    method ReleaseNode(node: string, name: string) returns (ghost done: bool)
      requires node in nodes
      modifies this`nodes
      ensures nodes == if done then old(nodes)[node := ReleasedLabels(old(nodes)[node], name)] else old(nodes)
      ensures reliable ==> done
    {
      done := false;
      var labels := GetNodeLabels(node);
      if labels.None? || !OwnedBy(labels.value, name) {
        done := labels.Some?;
        assert nodes[node := nodes[node]] == nodes;
        return;
      }
      ghost var before := nodes;
      var ok := PatchNode(node, map[], EksKeys(labels.value));
      assert (before[node] - EksKeys(before[node])) + map[] == ReleasedLabels(before[node], name);
      done := ok || nodes != before;
    }

    /** Strips a group's labels from the nodes that carry its name. */
    method ReleaseNodegroupNodes(name: string)
      modifies this`nodes
      ensures exists done :: done <= old(nodes).Keys && nodes == PartlyReleased(old(nodes), done, name)
      ensures reliable ==> nodes == Released(old(nodes), name)
      ensures FreedSome(old(nodes), nodes, name, reliable)
    {
      ReleasedAreFreed(nodes, name);
      ghost var before := nodes;
      ghost var done: set<string> := {};
      assert nodes == PartlyReleased(before, {}, name);
      var names := ListNodeNames();
      if names.None? {
        return;
      }
      for i := 0 to |names.value|
        invariant done <= Elements(names.value[..i]) && nodes == PartlyReleased(before, done, name)
        invariant reliable ==> done == Elements(names.value[..i])
      {
        var node := names.value[i];
        assert names.value[..i + 1] == names.value[..i] + [node];
        AppendNew(names.value[..i], node);
        assert node in before by { assert node in Elements(names.value); }
        assert node !in done by {
          assert forall j :: 0 <= j < i ==> names.value[j] != node;
        }
        ReleaseStep(before, done, node, name);
        ghost var now := ReleaseNode(node, name);
        if now {
          done := done + {node};
        }
      }
      assert names.value[..|names.value|] == names.value;
      ReleaseAll(before, name);
    }

    /** Creating a group in a cluster that is `active` or not. */
    method CreateNodegroup(name: string, role: string, active: bool, desired: int, instanceType: string, labels: Labels)
      returns (answer: Answer, crashed: bool)
      modifies this
      ensures answer == (if name == "" then NoName else if role == "" then NoRole
                         else if name in old(groups) then Exists else if !active then NotActive else Accepted)
      ensures answer != Accepted ==> nodes == old(nodes) && groups == old(groups) && !crashed
      ensures crashed ==> desired < 0 && nodes == old(nodes) && groups == old(groups)[name := NewGroup(desired, labels)]
      ensures answer == Accepted && desired < 0 && !crashed ==>
                && nodes == old(nodes)
                && groups == old(groups)[name := NewGroup(desired, labels).(status := CreateFailed, issue := Some(InternalFailure))]
      ensures answer == Accepted && desired < 0 && reliable ==> crashed
      ensures answer == Accepted && 0 <= desired ==>
                AllocationOutcome(old(nodes), old(groups)[name := NewGroup(desired, labels)], name, desired,
                                  Stamp(name, instanceType, region, labels), nodes, groups)
      ensures answer == Accepted && 0 <= desired && reliable ==>
                && nodes == CreatedNodes(old(nodes), region, name, desired, instanceType, labels)
                && groups == old(groups)[name := Settled(NewGroup(desired, labels), desired, |FreeSet(old(nodes))|)]
      ensures answer == Accepted && 0 <= desired ==> TakesSome(old(nodes), nodes, desired, name, instanceType, region, labels)
      ensures answer == Accepted && 0 <= desired && reliable ==>
                LabelledExactly(old(nodes), nodes, Elements(Claim(old(nodes), desired)), name, instanceType, region, labels)
    {
      if name == "" {
        return NoName, false;
      }
      if role == "" {
        return NoRole, false;
      }
      if name in groups {
        return Exists, false;
      }
      if !active {
        return NotActive, false;
      }
      crashed := StartNodegroup(name, desired, instanceType, labels);
      return Accepted, crashed;
    }

    /** The record first, then the allocation. */
    method StartNodegroup(name: string, desired: int, instanceType: string, labels: Labels) returns (crashed: bool)
      modifies this
      ensures crashed ==> desired < 0 && nodes == old(nodes) && groups == old(groups)[name := NewGroup(desired, labels)]
      ensures desired < 0 && !crashed ==>
                && nodes == old(nodes)
                && groups == old(groups)[name := NewGroup(desired, labels).(status := CreateFailed, issue := Some(InternalFailure))]
      ensures desired < 0 && reliable ==> crashed
      ensures 0 <= desired ==>
                AllocationOutcome(old(nodes), old(groups)[name := NewGroup(desired, labels)], name, desired,
                                  Stamp(name, instanceType, region, labels), nodes, groups)
      ensures 0 <= desired && reliable ==>
                && nodes == CreatedNodes(old(nodes), region, name, desired, instanceType, labels)
                && groups == old(groups)[name := Settled(NewGroup(desired, labels), desired, |FreeSet(old(nodes))|)]
      ensures 0 <= desired ==> TakesSome(old(nodes), nodes, desired, name, instanceType, region, labels)
      ensures 0 <= desired && reliable ==>
                LabelledExactly(old(nodes), nodes, Elements(Claim(old(nodes), desired)), name, instanceType, region, labels)
    {
      var g := NewGroup(desired, labels);
      groups := groups[name := g];
      assert StampFor(groups, name, instanceType) == Stamp(name, instanceType, region, labels);
      SettledNew(old(groups), name, g);
      crashed := AllocateNodegroup(name, desired, instanceType);
    }

    method DeleteNodegroup(name: string) returns (accepted: bool)
      modifies this
      ensures accepted <==> name in old(groups)
      ensures !accepted ==> nodes == old(nodes) && groups == old(groups)
      ensures accepted ==> groups == old(groups) - {name}
      ensures accepted ==> exists done :: done <= old(nodes).Keys && nodes == PartlyReleased(old(nodes), done, name)
      ensures accepted && reliable ==> nodes == Released(old(nodes), name)
      ensures accepted ==> FreedSome(old(nodes), nodes, name, reliable)
    {
      if name !in groups {
        return false;
      }
      groups := groups - {name};
      ReleaseNodegroupNodes(name);
      return true;
    }
  }

  ghost function PartlyReleased(nodes: map<string, Labels>, done: set<string>, group: string): map<string, Labels> {
    map n | n in nodes :: if n in done then ReleasedLabels(nodes[n], group) else nodes[n]
  }

  lemma ReleaseStep(before: map<string, Labels>, done: set<string>, node: string, group: string)
    requires node in before && node !in done
    ensures var mid := PartlyReleased(before, done, group);
            node in mid && mid[node := ReleasedLabels(mid[node], group)] == PartlyReleased(before, done + {node}, group)
  {
  }

  lemma ReleaseAll(before: map<string, Labels>, group: string)
    ensures PartlyReleased(before, before.Keys, group) == Released(before, group)
  {
  }

  function NewGroup(desired: int, labels: Labels): Group {
    Group(Creating, desired, labels, None)
  }

  function Settled(g: Group, desired: nat, free: nat): Group {
    g.(status := StatusFor(desired, free), issue := if free < desired then Some(NodeCreationFailure) else g.issue)
  }

  /** Settling a group that has just been recorded. */
  lemma SettledNew(groups: map<string, Group>, name: string, g: Group)
    ensures WithStatus(groups[name := g], name, CreateFailed, Some(InternalFailure))
         == groups[name := g.(status := CreateFailed, issue := Some(InternalFailure))]
    ensures forall desired: nat, free: nat ::
              SettledGroups(groups[name := g], name, desired, free) == groups[name := Settled(g, desired, free)]
  {
  }

  ghost function CreatedNodes(nodes: map<string, Labels>, region: string, name: string, desired: nat, instanceType: string, labels: Labels): map<string, Labels> {
    Stamped(nodes, Elements(Claim(nodes, desired)), Stamp(name, instanceType, region, labels))
  }

  function SettledGroups(groups: map<string, Group>, name: string, desired: nat, free: nat): map<string, Group> {
    if name in groups then groups[name := Settled(groups[name], desired, free)] else groups
  }

  function WithStatus(groups: map<string, Group>, name: string, status: Status, issue: Option<Issue>): map<string, Group> {
    if name in groups
    then groups[name := groups[name].(status := status, issue := if issue.Some? then issue else groups[name].issue)]
    else groups
  }

  /** An allocation that read `free` as the free nodes (those it could not read are missing), labelled
      `done` and was told that `claimed` of them are labelled. */
  ghost predicate AllocatedWith(nodes: map<string, Labels>, groups: map<string, Group>, name: string, desired: nat, stamp: Labels,
                                nodes': map<string, Labels>, groups': map<string, Group>,
                                free: seq<string>, done: set<string>, claimed: set<string>) {
    && StrictlySorted(free, Less) && Elements(free) <= FreeSet(nodes)
    && claimed <= done <= Elements(free[..Min(desired, |free|)])
    && nodes' == Stamped(nodes, done, stamp)
    && groups' == WithStatus(groups, name,
                             if claimed == {} then CreateFailed else if |free| < desired then Degraded else Active,
                             if |free| < desired then Some(NodeCreationFailure) else None)
  }

  /** What an allocation can come to when any call may fail: the nodes could not be listed, or some
      of the first `desired` readable free nodes were labelled and the status says what was reported. */
  ghost predicate AllocationOutcome(nodes: map<string, Labels>, groups: map<string, Group>, name: string, desired: nat, stamp: Labels,
                                    nodes': map<string, Labels>, groups': map<string, Group>) {
    || (nodes' == nodes && groups' == WithStatus(groups, name, CreateFailed, Some(InternalFailure)))
    || exists free, done, claimed :: AllocatedWith(nodes, groups, name, desired, stamp, nodes', groups', free, done, claimed)
  }

  function UserLabels(groups: map<string, Group>, name: string): Labels {
    if name in groups then groups[name].labels else map[]
  }

  /** Some of the free nodes, at most `desired`, are labelled, and the other nodes are as they were. */
  ghost predicate TakesSome(before: map<string, Labels>, after: map<string, Labels>, desired: nat,
                            group: string, instanceType: string, region: string, user: Labels) {
    exists taken: set<string> :: |taken| <= desired && taken <= FreeSet(before)
      && LabelledExactly(before, after, taken, group, instanceType, region, user)
  }

  lemma NobodyTaken(nodes: map<string, Labels>, desired: int, name: string, instanceType: string, region: string, user: Labels)
    ensures 0 <= desired ==> TakesSome(nodes, nodes, desired, name, instanceType, region, user)
  {
    var none: set<string> := {};
    assert LabelledExactly(nodes, nodes, none, name, instanceType, region, user);
  }

  /** Every outcome of an allocation, in those terms. */
  lemma OutcomeTakesSome(nodes: map<string, Labels>, groups: map<string, Group>, name: string, desired: nat, instanceType: string,
                         region: string, user: Labels, after: map<string, Labels>, groups': map<string, Group>)
    requires AllocationOutcome(nodes, groups, name, desired, Stamp(name, instanceType, region, user), after, groups')
    ensures TakesSome(nodes, after, desired, name, instanceType, region, user)
  {
    var stamp := Stamp(name, instanceType, region, user);
    if free, done, claimed :| AllocatedWith(nodes, groups, name, desired, stamp, after, groups', free, done, claimed) {
      var n := Min(desired, |free|);
      ClaimFacts(free, n, FreeSet(nodes));
      SubsetCount(done, Elements(free[..n]));
      StampedLabels(nodes, done, name, instanceType, region, user);
    } else {
      NobodyTaken(nodes, desired, name, instanceType, region, user);
    }
  }

  /** Whatever fails, an allocation takes only free workers and at most `desired` of them, and a group
      that ends ACTIVE or DEGRADED has at least one node. */
  lemma FaultyAllocationSafe(nodes: map<string, Labels>, groups: map<string, Group>, name: string, desired: nat, instanceType: string,
                             region: string, nodes': map<string, Labels>, groups': map<string, Group>)
    requires name in groups && Harmless(name, groups[name].labels)
    requires AllocationOutcome(nodes, groups, name, desired, Stamp(name, instanceType, region, groups[name].labels), nodes', groups')
    ensures Workers(nodes') == Workers(nodes) && groups'.Keys == groups.Keys
    ensures forall g :: g != name ==> NodesOf(nodes', g) == NodesOf(nodes, g)
    ensures NodesOf(nodes', name) - NodesOf(nodes, name) <= FreeSet(nodes)
    ensures |NodesOf(nodes', name) - NodesOf(nodes, name)| <= desired
    ensures groups'[name].status == CreateFailed || NodesOf(nodes', name) != {}
  {
    if !(nodes' == nodes && groups' == WithStatus(groups, name, CreateFailed, Some(InternalFailure))) {
      var stamp := Stamp(name, instanceType, region, groups[name].labels);
      var free, done, claimed :| AllocatedWith(nodes, groups, name, desired, stamp, nodes', groups', free, done, claimed);
      var n := Min(desired, |free|);
      ClaimFacts(free, n, FreeSet(nodes));
      StampFacts(name, instanceType, region, groups[name].labels);
      StampEffect(nodes, done, stamp, name);
      SubsetCount(done, Elements(free[..n]));
      assert NodesOf(nodes', name) - NodesOf(nodes, name) == done;
    } else {
      assert NodesOf(nodes', name) - NodesOf(nodes, name) == {};
    }
  }

  lemma NothingStamped(nodes: map<string, Labels>, stamp: Labels)
    ensures nodes == Stamped(nodes, {}, stamp)
  {
  }

  lemma StampOne(before: map<string, Labels>, done: set<string>, stamp: Labels, node: string)
    requires node in before && node !in done
    ensures var mid := Stamped(before, done, stamp);
            node in mid && mid[node := Patched(mid[node], stamp, {})] == Stamped(before, done + {node}, stamp)
  {
    assert before[node] - {} == before[node];
  }

  lemma ClaimFacts(free: seq<string>, n: nat, all: set<string>)
    requires StrictlySorted(free, Less) && n <= |free| && Elements(free) <= all
    ensures NoDuplicates(free) && NoDuplicates(free[..n]) && |Elements(free[..n])| == n
    ensures Elements(free[..n]) <= all && (forall x :: x in free[..n] ==> x in all)
  {
    StrictIsDistinct(free);
    assert NoDuplicates(free[..n]);
    DistinctCount(free[..n]);
    assert Elements(free[..n]) <= Elements(free);
    assert forall x :: x in free[..n] ==> x in Elements(free[..n]);
  }

  lemma SubsetCount<T>(a: set<T>, b: set<T>)
    requires a <= b
    ensures |a| <= |b|
  {
    if a != {} {
      var x :| x in a;
      SubsetCount(a - {x}, b - {x});
    }
  }

  /* ---------- Conservation over runs ---------- */

  /** A pool: every claimed node is a worker that names a live group, and every group's status says
      how many nodes it has. */
  ghost predicate PoolInv(nodes: map<string, Labels>, groups: map<string, Group>) {
    && (forall n :: n in nodes && NODEGROUP_LABEL in nodes[n] ==>
          CONTROL_PLANE_LABEL !in nodes[n] && nodes[n][NODEGROUP_LABEL] in groups)
    && (forall g :: g in groups ==> StatusHonest(groups[g], |NodesOf(nodes, g)|))
  }

  ghost predicate StatusHonest(g: Group, size: nat) {
    && size <= g.desired
    && (g.status == Active <==> 0 < size == g.desired)
    && (g.status == Degraded <==> 0 < size < g.desired)
    && (g.status == CreateFailed <==> size == 0)
  }

  /** A new group takes exactly min(desired, free) formerly free workers; everyone else keeps theirs. */
  lemma CreateEffect(nodes: map<string, Labels>, region: string, name: string, desired: nat, instanceType: string, user: Labels)
    requires Harmless(name, user)
    ensures var after := CreatedNodes(nodes, region, name, desired, instanceType, user);
            var claim := Elements(Claim(nodes, desired));
            && |claim| == Min(desired, |FreeSet(nodes)|) && claim <= FreeSet(nodes)
            && FreeSet(after) == FreeSet(nodes) - claim
            && Workers(after) == Workers(nodes)
            && NodesOf(after, name) == NodesOf(nodes, name) + claim
            && (forall g :: g != name ==> NodesOf(after, g) == NodesOf(nodes, g))
            && (forall n :: n in nodes ==> if n in claim then IsClaim(after[n], name) else after[n] == nodes[n])
  {
    StampFacts(name, instanceType, region, user);
    DistinctCount(Claim(nodes, desired));
    StampEffect(nodes, Elements(Claim(nodes, desired)), Stamp(name, instanceType, region, user), name);
  }

  lemma StampEffect(nodes: map<string, Labels>, claim: set<string>, stamp: Labels, name: string)
    requires claim <= FreeSet(nodes) && NODEGROUP_LABEL in stamp && stamp[NODEGROUP_LABEL] == name && CONTROL_PLANE_LABEL !in stamp
    ensures var after := Stamped(nodes, claim, stamp);
            && FreeSet(after) == FreeSet(nodes) - claim
            && Workers(after) == Workers(nodes)
            && NodesOf(after, name) == NodesOf(nodes, name) + claim
            && (forall g :: g != name ==> NodesOf(after, g) == NodesOf(nodes, g))
            && (forall n :: n in nodes ==> if n in claim then IsClaim(after[n], name) else after[n] == nodes[n])
  {
    var after := Stamped(nodes, claim, stamp);
    assert forall n :: n in claim ==> n in nodes && IsClaim(after[n], name);
    assert forall n :: n in nodes && n !in claim ==> after[n] == nodes[n];
    forall g | g != name ensures NodesOf(after, g) == NodesOf(nodes, g) {
      assert forall n :: n in claim ==> !OwnedBy(after[n], g) && !OwnedBy(nodes[n], g);
    }
  }

  /** A worker claimed by a group. */
  ghost predicate IsClaim(labels: Labels, group: string) {
    OwnedBy(labels, group) && CONTROL_PLANE_LABEL !in labels
  }

  /** Deleting a group returns all of its nodes to the pool and touches no other node. */
  lemma DeleteEffect(nodes: map<string, Labels>, groups: map<string, Group>, name: string)
    requires PoolInv(nodes, groups)
    ensures var after := Released(nodes, name);
            && FreeSet(after) == FreeSet(nodes) + NodesOf(nodes, name)
            && Workers(after) == Workers(nodes)
            && NodesOf(after, name) == {}
            && (forall g :: g != name ==> NodesOf(after, g) == NodesOf(nodes, g))
            && (forall n :: n in nodes ==> if n in NodesOf(nodes, name) then IsFree(after[n]) else after[n] == nodes[n])
  {
    KeyFacts();
    var after := Released(nodes, name);
    assert forall n :: n in nodes && OwnedBy(nodes[n], name) ==> NODEGROUP_LABEL in EksKeys(nodes[n]) && NODEGROUP_LABEL !in after[n];
    assert forall n :: n in nodes && !OwnedBy(nodes[n], name) ==> after[n] == nodes[n];
    forall g | g != name ensures NodesOf(after, g) == NodesOf(nodes, g) {
      assert forall n :: n in nodes && OwnedBy(nodes[n], name) ==> !OwnedBy(after[n], g) && !OwnedBy(nodes[n], g);
    }
  }

  datatype PoolOp =
    | Create(name: string, desired: nat, instanceType: string, labels: Labels)
    | Delete(name: string)

  datatype PoolState = PoolState(nodes: map<string, Labels>, groups: map<string, Group>)

  /** What the two handlers do on a reliable API server, as `Pool` is proved to. */
  ghost function PoolNext(region: string, s: PoolState, op: PoolOp): PoolState {
    match op
    case Create(name, desired, instanceType, labels) =>
      if name == "" || name in s.groups then s
      else PoolState(CreatedNodes(s.nodes, region, name, desired, instanceType, labels),
                     s.groups[name := Settled(NewGroup(desired, labels), desired, |FreeSet(s.nodes)|)])
    case Delete(name) =>
      if name !in s.groups then s else PoolState(Released(s.nodes, name), s.groups - {name})
  }

  ghost predicate HarmlessOp(op: PoolOp) {
    op.Create? ==> Harmless(op.name, op.labels)
  }

  lemma NoNodesWithoutGroup(nodes: map<string, Labels>, groups: map<string, Group>, name: string)
    requires PoolInv(nodes, groups) && name !in groups
    ensures NodesOf(nodes, name) == {}
  {
  }

  lemma CreateKeepsPool(region: string, s: PoolState, name: string, desired: nat, instanceType: string, labels: Labels)
    requires PoolInv(s.nodes, s.groups) && Harmless(name, labels) && name != "" && name !in s.groups
    ensures var t := PoolNext(region, s, Create(name, desired, instanceType, labels));
            PoolInv(t.nodes, t.groups) && Workers(t.nodes) == Workers(s.nodes)
  {
    var after := CreatedNodes(s.nodes, region, name, desired, instanceType, labels);
    var claim := Elements(Claim(s.nodes, desired));
    CreateClaims(region, s, name, desired, instanceType, labels);
    ClaimKeepsPool(s.nodes, s.groups, after, claim, name, Settled(NewGroup(desired, labels), desired, |FreeSet(s.nodes)|));
  }

  lemma CreateClaims(region: string, s: PoolState, name: string, desired: nat, instanceType: string, labels: Labels)
    requires PoolInv(s.nodes, s.groups) && Harmless(name, labels) && name !in s.groups
    ensures var after := CreatedNodes(s.nodes, region, name, desired, instanceType, labels);
            var claim := Elements(Claim(s.nodes, desired));
            && after.Keys == s.nodes.Keys && NodesOf(after, name) == claim && Workers(after) == Workers(s.nodes)
            && (forall g :: g != name ==> NodesOf(after, g) == NodesOf(s.nodes, g))
            && (forall n :: n in s.nodes ==> if n in claim then IsClaim(after[n], name) else after[n] == s.nodes[n])
            && StatusHonest(Settled(NewGroup(desired, labels), desired, |FreeSet(s.nodes)|), |claim|)
  {
    CreateEffect(s.nodes, region, name, desired, instanceType, labels);
    NoNodesWithoutGroup(s.nodes, s.groups, name);
  }

  lemma ClaimKeepsPool(nodes: map<string, Labels>, groups: map<string, Group>, after: map<string, Labels>, claim: set<string>,
                       name: string, group: Group)
    requires PoolInv(nodes, groups) && name !in groups && after.Keys == nodes.Keys
    requires NodesOf(after, name) == claim && StatusHonest(group, |claim|)
    requires forall g :: g != name ==> NodesOf(after, g) == NodesOf(nodes, g)
    requires forall n :: n in nodes ==> if n in claim then IsClaim(after[n], name) else after[n] == nodes[n]
    ensures PoolInv(after, groups[name := group])
  {
  }

  lemma DeleteKeepsPool(region: string, s: PoolState, name: string)
    requires PoolInv(s.nodes, s.groups) && name in s.groups
    ensures var t := PoolNext(region, s, Delete(name));
            PoolInv(t.nodes, t.groups) && Workers(t.nodes) == Workers(s.nodes)
  {
    var t := PoolNext(region, s, Delete(name));
    DeleteEffect(s.nodes, s.groups, name);
    forall n | n in t.nodes && NODEGROUP_LABEL in t.nodes[n]
      ensures CONTROL_PLANE_LABEL !in t.nodes[n] && t.nodes[n][NODEGROUP_LABEL] in t.groups
    {
      assert n !in NodesOf(s.nodes, name);
    }
  }

  ghost function RunPool(region: string, s: PoolState, ops: seq<PoolOp>): PoolState {
    if |ops| == 0 then s else PoolNext(region, RunPool(region, s, ops[..|ops| - 1]), ops[|ops| - 1])
  }

  /** Over every run of creations and deletions with harmless labels the workers are conserved: each
      is free or belongs to exactly one live group, and every group's status counts its nodes. */
  lemma {:induction false} PoolConserved(region: string, s: PoolState, ops: seq<PoolOp>)
    requires PoolInv(s.nodes, s.groups) && forall op :: op in ops ==> HarmlessOp(op)
    ensures var t := RunPool(region, s, ops);
            && PoolInv(t.nodes, t.groups)
            && Workers(t.nodes) == Workers(s.nodes)
            && (forall n :: n in Workers(s.nodes) ==>
                  (n in FreeSet(t.nodes) <==> !exists g :: g in t.groups && n in NodesOf(t.nodes, g)))
    decreases |ops|
  {
    if |ops| > 0 {
      var front, op := ops[..|ops| - 1], ops[|ops| - 1];
      PoolConserved(region, s, front);
      var m := RunPool(region, s, front);
      assert op in ops;
      match op
      case Create(name, desired, instanceType, labels) =>
        if name != "" && name !in m.groups { CreateKeepsPool(region, m, name, desired, instanceType, labels); }
      case Delete(name) =>
        if name in m.groups { DeleteKeepsPool(region, m, name); }
    }
    var t := RunPool(region, s, ops);
    forall n | n in Workers(s.nodes)
      ensures n in FreeSet(t.nodes) <==> !exists g :: g in t.groups && n in NodesOf(t.nodes, g)
    {
      assert n in Workers(t.nodes);
      if n !in FreeSet(t.nodes) {
        var g := t.nodes[n][NODEGROUP_LABEL];
        assert g in t.groups && n in NodesOf(t.nodes, g);
      }
    }
  }

  ghost function CreateThenDelete(region: string, s: PoolState, name: string, desired: nat, instanceType: string, user: Labels): PoolState {
    PoolNext(region, PoolNext(region, s, Create(name, desired, instanceType, user)), Delete(name))
  }

  /** Creating a group and deleting it again restores the free list, unless it claimed a node and
      its user labels name another group or mark the node as control plane. */
  lemma DeleteRestoresIff(region: string, s: PoolState, name: string, desired: nat, instanceType: string, user: Labels)
    requires PoolInv(s.nodes, s.groups) && name != "" && name !in s.groups
    ensures var t := CreateThenDelete(region, s, name, desired, instanceType, user);
            (SortedSeq(FreeSet(t.nodes)) == SortedSeq(FreeSet(s.nodes)))
            <==> (Min(desired, |FreeSet(s.nodes)|) == 0 || Harmless(name, user))
  {
    if Harmless(name, user) {
      HarmlessRestored(region, s, name, desired, instanceType, user);
    } else if Claim(s.nodes, desired) == [] {
      EmptyClaimRestored(region, s, name, desired, instanceType, user);
    } else {
      var t := CreateThenDelete(region, s, name, desired, instanceType, user);
      var n := Claim(s.nodes, desired)[0];
      assert n in Elements(Claim(s.nodes, desired));
      HarmfulNodeLost(s.nodes, region, name, desired, instanceType, user, n);
      assert n in Elements(SortedSeq(FreeSet(s.nodes)));
      assert n !in Elements(SortedSeq(FreeSet(t.nodes)));
    }
  }

  lemma HarmlessRestored(region: string, s: PoolState, name: string, desired: nat, instanceType: string, user: Labels)
    requires PoolInv(s.nodes, s.groups) && name != "" && name !in s.groups && Harmless(name, user)
    ensures FreeSet(CreateThenDelete(region, s, name, desired, instanceType, user).nodes) == FreeSet(s.nodes)
  {
    var m := PoolNext(region, s, Create(name, desired, instanceType, user));
    CreateKeepsPool(region, s, name, desired, instanceType, user);
    CreateEffect(s.nodes, region, name, desired, instanceType, user);
    DeleteEffect(m.nodes, m.groups, name);
    NoNodesWithoutGroup(s.nodes, s.groups, name);
  }

  lemma EmptyClaimRestored(region: string, s: PoolState, name: string, desired: nat, instanceType: string, user: Labels)
    requires PoolInv(s.nodes, s.groups) && name != "" && name !in s.groups && Claim(s.nodes, desired) == []
    ensures CreateThenDelete(region, s, name, desired, instanceType, user).nodes == s.nodes
  {
    NothingStamped(s.nodes, Stamp(name, instanceType, region, user));
    assert Elements(Claim(s.nodes, desired)) == {};
    NoNodesWithoutGroup(s.nodes, s.groups, name);
    assert forall n :: n in s.nodes ==> n !in NodesOf(s.nodes, name);
  }

  lemma HarmfulNodeLost(nodes: map<string, Labels>, region: string, name: string, desired: nat, instanceType: string, user: Labels, n: string)
    requires !Harmless(name, user) && n in Elements(Claim(nodes, desired))
    ensures n in nodes && n in FreeSet(nodes)
    ensures n !in FreeSet(Released(CreatedNodes(nodes, region, name, desired, instanceType, user), name))
  {
    StampFacts(name, instanceType, region, user);
    KeyFacts();
    var stamped := nodes[n] + Stamp(name, instanceType, region, user);
    var released := ReleasedLabels(stamped, name);
    if CONTROL_PLANE_LABEL in user {
      assert CONTROL_PLANE_LABEL !in EksKeys(stamped);
      assert CONTROL_PLANE_LABEL in released;
    } else {
      assert released == stamped;
    }
  }
}
