/** internal/api/nodegroup.go under every interleaving: allocators and releasers are goroutines with
    no common lock, so each is cut at its API calls and its accesses to the store, and their steps
    are mixed in any order with the create and delete handlers. */
module NodePoolSteps {
  import opened Text
  import opened Rbac
  import opened NodePool

  datatype Proc =
    // allocateNodegroup: list the nodes, read them one by one, read the group's labels, patch, settle
    | AllocList(group: string, desired: nat, kind: string)
    | AllocScan(group: string, desired: nat, kind: string, unread: set<string>, free: set<string>)
    | AllocPrepare(group: string, desired: nat, kind: string, claim: seq<string>, short: bool)
    | AllocPatch(group: string, desired: nat, stamp: Labels, todo: seq<string>, patched: set<string>, claimed: nat, short: bool)
    | AllocDone(group: string, desired: nat, patched: set<string>)
    // releaseNodegroupNodes: list the nodes, then for each read its labels and patch it
    | ReleaseList(group: string)
    | ReleaseScan(group: string, unread: set<string>)
    | ReleasePatch(group: string, node: string, remove: set<string>, unread: set<string>)
    | ReleaseDone(group: string)

  /** `nodes` is the API server's, `groups` the store's. */
  datatype State = State(nodes: map<string, Labels>, groups: map<string, Group>, procs: map<nat, Proc>)

  /** A handler runs, or process `id` makes its next call; `node` is the node it happens to be at,
      `ok` whether the call succeeds, and `applied` whether a failed patch was made all the same. */
  datatype Event =
    | CreateHandler(id: nat, name: string, desired: nat, kind: string, labels: Labels)
    | DeleteHandler(id: nat, name: string)
    | Call(id: nat, node: string, ok: bool, applied: bool)

  ghost function SettleStatus(short: bool, claimed: nat): Status {
    if claimed == 0 then CreateFailed else if short then Degraded else Active
  }

  ghost function ChosenClaim(free: set<string>, desired: nat): (claim: seq<string>)
    ensures |claim| <= desired && Elements(claim) <= free
  {
    var s := SortedSeq(free);
    s[..Min(desired, |s|)]
  }

  ghost function Advance(region: string, s: State, e: Event): State
    requires e.Call? && e.id in s.procs
  {
    match s.procs[e.id]
    case AllocList(group, desired, kind) =>
      if e.ok then s.(procs := s.procs[e.id := AllocScan(group, desired, kind, s.nodes.Keys, {})])
      else s.(groups := WithStatus(s.groups, group, CreateFailed, Some(InternalFailure)),
              procs := s.procs[e.id := AllocDone(group, desired, {})])
    case AllocScan(group, desired, kind, unread, free) =>
      if unread == {} then
        s.(procs := s.procs[e.id := AllocPrepare(group, desired, kind, ChosenClaim(free, desired), |free| < desired)])
      else if e.node !in unread || e.node !in s.nodes then s
      else
        s.(procs := s.procs[e.id := AllocScan(group, desired, kind, unread - {e.node},
             if e.ok && IsFree(s.nodes[e.node]) then free + {e.node} else free)])
    case AllocPrepare(group, desired, kind, claim, short) =>
      var user := if group in s.groups then s.groups[group].labels else map[];
      s.(procs := s.procs[e.id := AllocPatch(group, desired, Stamp(group, kind, region, user), claim, {}, 0, short)])
    case AllocPatch(group, desired, stamp, todo, patched, claimed, short) =>
      if todo == [] then
        s.(groups := WithStatus(s.groups, group, SettleStatus(short, claimed), if short then Some(NodeCreationFailure) else None),
           procs := s.procs[e.id := AllocDone(group, desired, patched)])
      else
        var made := (e.ok || e.applied) && todo[0] in s.nodes;
        State(if made then s.nodes[todo[0] := Patched(s.nodes[todo[0]], stamp, {})] else s.nodes, s.groups,
              s.procs[e.id := AllocPatch(group, desired, stamp, todo[1..], if made then patched + {todo[0]} else patched,
                                         if e.ok then claimed + 1 else claimed, short)])
    case AllocDone(_, _, _) => s
    case ReleaseList(group) =>
      s.(procs := s.procs[e.id := if e.ok then ReleaseScan(group, s.nodes.Keys) else ReleaseDone(group)])
    case ReleaseScan(group, unread) =>
      if unread == {} then s.(procs := s.procs[e.id := ReleaseDone(group)])
      else if e.node !in unread || e.node !in s.nodes then s
      else if e.ok && OwnedBy(s.nodes[e.node], group) then
        s.(procs := s.procs[e.id := ReleasePatch(group, e.node, EksKeys(s.nodes[e.node]), unread - {e.node})])
      else s.(procs := s.procs[e.id := ReleaseScan(group, unread - {e.node})])
    case ReleasePatch(group, node, remove, unread) =>
      var made := (e.ok || e.applied) && node in s.nodes;
      State(if made then s.nodes[node := Patched(s.nodes[node], map[], remove)] else s.nodes, s.groups,
            s.procs[e.id := ReleaseScan(group, unread)])
    case ReleaseDone(_) => s
  }

  /** The create handler accepts any name here, even one in use: its check and its write are separate. */
  ghost function Next(region: string, s: State, e: Event): State {
    match e
    case CreateHandler(id, name, desired, kind, labels) =>
      if id in s.procs then s
      else State(s.nodes, s.groups[name := NewGroup(desired, labels)], s.procs[id := AllocList(name, desired, kind)])
    case DeleteHandler(id, name) =>
      if id in s.procs || name !in s.groups then s
      else State(s.nodes, s.groups - {name}, s.procs[id := ReleaseList(name)])
    case Call(id, _, _, _) => if id in s.procs then Advance(region, s, e) else s
  }

  ghost function Run(region: string, s: State, es: seq<Event>): State {
    if |es| == 0 then s else Next(region, Run(region, s, es[..|es| - 1]), es[|es| - 1])
  }

  /* ---------- What every interleaving keeps ---------- */

  ghost function ControlPlane(nodes: map<string, Labels>): set<string> {
    set n | n in nodes && CONTROL_PLANE_LABEL in nodes[n]
  }

  ghost predicate ProcInv(cps: set<string>, p: Proc) {
    match p
    case AllocScan(_, _, _, _, free) => free !! cps
    case AllocPrepare(_, desired, _, claim, _) => |claim| <= desired && Elements(claim) !! cps
    case AllocPatch(group, desired, stamp, todo, patched, claimed, _) =>
      && |patched| + |todo| <= desired && Elements(todo) !! cps && patched !! cps
      && OwnedBy(stamp, group) && CONTROL_PLANE_LABEL !in stamp
    case AllocDone(_, desired, patched) => |patched| <= desired && patched !! cps
    case ReleasePatch(_, _, remove, _) => CONTROL_PLANE_LABEL !in remove
    case _ => true
  }

  ghost function PatchedBy(p: Proc): set<string> {
    match p
    case AllocPatch(_, _, _, _, patched, _, _) => patched
    case AllocDone(_, _, patched) => patched
    case _ => {}
  }

  /** Node `n` carries the name of a group whose allocator patched it. */
  ghost predicate Accounted(s: State, n: string)
    requires n in s.nodes
  {
    NODEGROUP_LABEL in s.nodes[n] ==>
      exists id :: id in s.procs && n in PatchedBy(s.procs[id]) && s.procs[id].group == s.nodes[n][NODEGROUP_LABEL]
  }

  ghost predicate Safe(cps: set<string>, s: State) {
    && ControlPlane(s.nodes) == cps
    && (forall n :: n in cps ==> NODEGROUP_LABEL !in s.nodes[n])
    && (forall id :: id in s.procs ==> ProcInv(cps, s.procs[id]))
    && (forall g :: g in s.groups ==> Harmless(g, s.groups[g].labels))
    && (forall n :: n in s.nodes ==> Accounted(s, n))
  }

  ghost predicate HarmlessEvent(e: Event) {
    e.CreateHandler? ==> Harmless(e.name, e.labels)
  }

  /** Rewriting one process and at most one node keeps the invariant, if the process only gains
      patched nodes, and the node changes as one of its patches changes it. */
  lemma KeepsSafe(cps: set<string>, s: State, t: State, id: nat, node: string)
    requires Safe(cps, s) && id in s.procs && id in t.procs && t.procs == s.procs[id := t.procs[id]]
    requires ProcInv(cps, t.procs[id]) && t.procs[id].group == s.procs[id].group && PatchedBy(s.procs[id]) <= PatchedBy(t.procs[id])
    requires t.nodes.Keys == s.nodes.Keys && forall n :: n in s.nodes && n != node ==> t.nodes[n] == s.nodes[n]
    requires node in s.nodes ==>
               && (CONTROL_PLANE_LABEL in t.nodes[node] <==> CONTROL_PLANE_LABEL in s.nodes[node])
               && (NODEGROUP_LABEL in t.nodes[node] ==>
                     || (NODEGROUP_LABEL in s.nodes[node] && s.nodes[node][NODEGROUP_LABEL] == t.nodes[node][NODEGROUP_LABEL])
                     || (node !in cps && node in PatchedBy(t.procs[id]) && OwnedBy(t.nodes[node], t.procs[id].group)))
    requires forall g :: g in t.groups ==> g in s.groups && t.groups[g].labels == s.groups[g].labels
    ensures Safe(cps, t)
  {
    assert ControlPlane(t.nodes) == ControlPlane(s.nodes) by {
      assert forall n :: n in s.nodes ==> (CONTROL_PLANE_LABEL in t.nodes[n] <==> CONTROL_PLANE_LABEL in s.nodes[n]);
    }
    forall n | n in t.nodes ensures Accounted(t, n) {
      assert Accounted(s, n);
      if NODEGROUP_LABEL in t.nodes[n] && NODEGROUP_LABEL in s.nodes[n] && s.nodes[n][NODEGROUP_LABEL] == t.nodes[n][NODEGROUP_LABEL] {
        var i :| i in s.procs && n in PatchedBy(s.procs[i]) && s.procs[i].group == s.nodes[n][NODEGROUP_LABEL];
        assert i in t.procs && n in PatchedBy(t.procs[i]);
      }
    }
  }

  lemma ScanSafe(region: string, cps: set<string>, s: State, e: Event)
    requires Safe(cps, s) && e.Call? && e.id in s.procs && s.procs[e.id].AllocScan?
    ensures Safe(cps, Advance(region, s, e))
  {
    var p := s.procs[e.id];
    assert s.procs == s.procs[e.id := p];
    assert ProcInv(cps, p);
    assert p.unread == {} ==> Elements(ChosenClaim(p.free, p.desired)) !! cps;
    KeepsSafe(cps, s, Advance(region, s, e), e.id, "");
  }

  lemma PrepareSafe(region: string, cps: set<string>, s: State, e: Event)
    requires Safe(cps, s) && e.Call? && e.id in s.procs && s.procs[e.id].AllocPrepare?
    ensures Safe(cps, Advance(region, s, e))
  {
    var p := s.procs[e.id];
    assert ProcInv(cps, p);
    StampFacts(p.group, p.kind, region, if p.group in s.groups then s.groups[p.group].labels else map[]);
    KeepsSafe(cps, s, Advance(region, s, e), e.id, "");
  }

  lemma PatchSafe(region: string, cps: set<string>, s: State, e: Event)
    requires Safe(cps, s) && e.Call? && e.id in s.procs && s.procs[e.id].AllocPatch?
    ensures Safe(cps, Advance(region, s, e))
  {
    var p := s.procs[e.id];
    assert ProcInv(cps, p);
    if p.todo == [] {
      KeepsSafe(cps, s, Advance(region, s, e), e.id, "");
    } else {
      assert p.todo[0] in Elements(p.todo) && Elements(p.todo[1..]) <= Elements(p.todo);
      assert |p.patched + {p.todo[0]}| <= |p.patched| + 1;
      KeepsSafe(cps, s, Advance(region, s, e), e.id, p.todo[0]);
    }
  }

  lemma ReleaseSafe(region: string, cps: set<string>, s: State, e: Event)
    requires Safe(cps, s) && e.Call? && e.id in s.procs && (s.procs[e.id].ReleaseScan? || s.procs[e.id].ReleasePatch?)
    ensures Safe(cps, Advance(region, s, e))
  {
    var p := s.procs[e.id];
    assert s.procs == s.procs[e.id := p];
    assert ProcInv(cps, p);
    KeyFacts();
    KeepsSafe(cps, s, Advance(region, s, e), e.id, if p.ReleasePatch? then p.node else "");
  }

  lemma AdvanceSafe(region: string, cps: set<string>, s: State, e: Event)
    requires Safe(cps, s) && e.Call? && e.id in s.procs
    ensures Safe(cps, Advance(region, s, e))
  {
    var p := s.procs[e.id];
    match p
    case AllocScan(_, _, _, _, _) => ScanSafe(region, cps, s, e);
    case AllocPrepare(_, _, _, _, _) => PrepareSafe(region, cps, s, e);
    case AllocPatch(_, _, _, _, _, _, _) => PatchSafe(region, cps, s, e);
    case ReleaseScan(_, _) => ReleaseSafe(region, cps, s, e);
    case ReleasePatch(_, _, _, _) => ReleaseSafe(region, cps, s, e);
    case AllocList(_, _, _) => KeepsSafe(cps, s, Advance(region, s, e), e.id, "");
    case ReleaseList(_) => KeepsSafe(cps, s, Advance(region, s, e), e.id, "");
    case AllocDone(_, _, _) =>
    case ReleaseDone(_) =>
  }

  lemma NextSafe(region: string, cps: set<string>, s: State, e: Event)
    requires Safe(cps, s) && HarmlessEvent(e)
    ensures Safe(cps, Next(region, s, e))
  {
    if e.Call? && e.id in s.procs {
      AdvanceSafe(region, cps, s, e);
    } else {
      var t := Next(region, s, e);
      forall n | n in t.nodes ensures Accounted(t, n) {
        assert Accounted(s, n);
        if NODEGROUP_LABEL in s.nodes[n] {
          var i :| i in s.procs && n in PatchedBy(s.procs[i]) && s.procs[i].group == s.nodes[n][NODEGROUP_LABEL];
          assert i in t.procs && t.procs[i] == s.procs[i];
        }
      }
    }
  }

  /** In every interleaving: no control-plane node is ever claimed and none is ever created; every
      allocator labels at most the number of nodes it was asked for; and a node only ever carries
      the name of a group whose own allocator labelled it. */
  lemma {:induction false} PoolSafeInEveryInterleaving(region: string, s: State, es: seq<Event>)
    requires Safe(ControlPlane(s.nodes), s) && forall e :: e in es ==> HarmlessEvent(e)
    ensures var t := Run(region, s, es);
            && ControlPlane(t.nodes) == ControlPlane(s.nodes)
            && (forall n :: n in ControlPlane(s.nodes) ==> n in t.nodes && NODEGROUP_LABEL !in t.nodes[n])
            && (forall id :: id in t.procs && t.procs[id].AllocDone? ==> |t.procs[id].patched| <= t.procs[id].desired)
            && (forall id :: id in t.procs && t.procs[id].AllocPatch? ==> |t.procs[id].patched| <= t.procs[id].desired)
            && (forall n :: n in t.nodes ==> Accounted(t, n))
    ensures Safe(ControlPlane(s.nodes), Run(region, s, es))
    decreases |es|
  {
    if |es| > 0 {
      var front := es[..|es| - 1];
      PoolSafeInEveryInterleaving(region, s, front);
      assert es[|es| - 1] in es;
      NextSafe(region, ControlPlane(s.nodes), Run(region, s, front), es[|es| - 1]);
    }
    var t := Run(region, s, es);
    forall n | n in ControlPlane(s.nodes) ensures n in t.nodes && NODEGROUP_LABEL !in t.nodes[n] {
      assert n in ControlPlane(t.nodes);
    }
    forall id | id in t.procs ensures ProcInv(ControlPlane(s.nodes), t.procs[id]) {
    }
  }

  /* ---------- A process that runs alone does what the sequential code does ---------- */

  ghost predicate Solo(es: seq<Event>, id: nat) {
    forall e :: e in es ==> e.Call? && e.id == id && e.ok
  }

  ghost predicate AllocProgress(region: string, s: State, t: State, id: nat, group: string, desired: nat, kind: string)
    requires id in t.procs
  {
    var claim := Claim(s.nodes, desired);
    var short := |FreeSet(s.nodes)| < desired;
    var stamp := Stamp(group, kind, region, if group in s.groups then s.groups[group].labels else map[]);
    match t.procs[id]
    case AllocList(g, d, k) => g == group && d == desired && k == kind && t.nodes == s.nodes && t.groups == s.groups
    case AllocScan(g, d, k, unread, free) =>
      && g == group && d == desired && k == kind && t.nodes == s.nodes && t.groups == s.groups
      && unread <= s.nodes.Keys && free == FreeSet(s.nodes) - unread
    case AllocPrepare(g, d, k, c, sh) =>
      g == group && d == desired && k == kind && t.nodes == s.nodes && t.groups == s.groups && c == claim && sh == short
    case AllocPatch(g, d, st, todo, patched, claimed, sh) =>
      && g == group && d == desired && st == stamp && sh == short && t.groups == s.groups
      && claimed <= |claim| && todo == claim[claimed..] && patched == Elements(claim[..claimed])
      && t.nodes == Stamped(s.nodes, patched, stamp)
    case AllocDone(g, d, patched) =>
      && t.nodes == Stamped(s.nodes, Elements(claim), stamp)
      && t.groups == SettledGroups(s.groups, group, desired, |FreeSet(s.nodes)|)
    case _ => false
  }

  lemma SortedLength(S: set<string>)
    ensures |SortedSeq(S)| == |S|
  {
    StrictIsDistinct(SortedSeq(S));
    DistinctCount(SortedSeq(S));
  }

  lemma PatchOne(nodes: map<string, Labels>, claim: seq<string>, i: nat, stamp: Labels)
    requires i < |claim| && NoDuplicates(claim) && Elements(claim) <= nodes.Keys
    ensures var mid := Stamped(nodes, Elements(claim[..i]), stamp);
            claim[i] in mid && mid[claim[i] := Patched(mid[claim[i]], stamp, {})] == Stamped(nodes, Elements(claim[..i + 1]), stamp)
    ensures Elements(claim[..i + 1]) == Elements(claim[..i]) + {claim[i]}
  {
    assert claim[..i + 1] == claim[..i] + [claim[i]];
    AppendNew(claim[..i], claim[i]);
    assert claim[i] in Elements(claim);
    assert claim[i] !in Elements(claim[..i]);
    assert nodes[claim[i]] - {} == nodes[claim[i]];
  }

  lemma ScanAdvances(region: string, s: State, t: State, e: Event, group: string, desired: nat, kind: string)
    requires e.Call? && e.ok && e.id in t.procs && t.procs[e.id].AllocScan?
    requires AllocProgress(region, s, t, e.id, group, desired, kind)
    ensures AllocProgress(region, s, Advance(region, t, e), e.id, group, desired, kind)
  {
    var p := t.procs[e.id];
    if p.unread == {} {
      SortedLength(FreeSet(s.nodes));
      assert FreeSet(s.nodes) - {} == FreeSet(s.nodes);
    } else if e.node in p.unread {
      ScanOneAdvances(region, s, t, e, group, desired, kind);
    }
  }

  lemma ScanOneAdvances(region: string, s: State, t: State, e: Event, group: string, desired: nat, kind: string)
    requires e.Call? && e.ok && e.id in t.procs && t.procs[e.id].AllocScan? && e.node in t.procs[e.id].unread
    requires AllocProgress(region, s, t, e.id, group, desired, kind)
    ensures AllocProgress(region, s, Advance(region, t, e), e.id, group, desired, kind)
  {
    var p := t.procs[e.id];
    assert FreeSet(s.nodes) - (p.unread - {e.node})
        == (FreeSet(s.nodes) - p.unread) + if IsFree(s.nodes[e.node]) then {e.node} else {};
  }

  lemma PrepareAdvances(region: string, s: State, t: State, e: Event, group: string, desired: nat, kind: string)
    requires e.Call? && e.ok && e.id in t.procs && t.procs[e.id].AllocPrepare?
    requires AllocProgress(region, s, t, e.id, group, desired, kind)
    ensures AllocProgress(region, s, Advance(region, t, e), e.id, group, desired, kind)
  {
    var claim := Claim(s.nodes, desired);
    assert claim[..0] == [] && Elements(claim[..0]) == {} && claim[0..] == claim;
    NothingStamped(s.nodes, Stamp(group, kind, region, if group in s.groups then s.groups[group].labels else map[]));
  }

  lemma PatchAdvances(region: string, s: State, t: State, e: Event, group: string, desired: nat, kind: string)
    requires e.Call? && e.ok && e.id in t.procs && t.procs[e.id].AllocPatch?
    requires AllocProgress(region, s, t, e.id, group, desired, kind)
    ensures AllocProgress(region, s, Advance(region, t, e), e.id, group, desired, kind)
  {
    if t.procs[e.id].todo == [] {
      PatchDoneAdvances(region, s, t, e, group, desired, kind);
    } else {
      PatchOneAdvances(region, s, t, e, group, desired, kind);
    }
  }

  lemma PatchDoneAdvances(region: string, s: State, t: State, e: Event, group: string, desired: nat, kind: string)
    requires e.Call? && e.ok && e.id in t.procs && t.procs[e.id].AllocPatch? && t.procs[e.id].todo == []
    requires AllocProgress(region, s, t, e.id, group, desired, kind)
    ensures AllocProgress(region, s, Advance(region, t, e), e.id, group, desired, kind)
  {
    var claim := Claim(s.nodes, desired);
    assert claim[..t.procs[e.id].claimed] == claim;
  }

  lemma PatchOneAdvances(region: string, s: State, t: State, e: Event, group: string, desired: nat, kind: string)
    requires e.Call? && e.ok && e.id in t.procs && t.procs[e.id].AllocPatch? && t.procs[e.id].todo != []
    requires AllocProgress(region, s, t, e.id, group, desired, kind)
    ensures AllocProgress(region, s, Advance(region, t, e), e.id, group, desired, kind)
  {
    var p := t.procs[e.id];
    var claim := Claim(s.nodes, desired);
    var i := p.claimed;
    assert Elements(claim) <= s.nodes.Keys;
    PatchOne(s.nodes, claim, i, p.stamp);
    assert p.todo[0] == claim[i] && p.todo[1..] == claim[i + 1..];
    var t' := Advance(region, t, e);
    assert t'.procs[e.id] == AllocPatch(group, desired, p.stamp, claim[i + 1..], Elements(claim[..i + 1]), i + 1, p.short);
  }

  lemma ListAdvances(region: string, s: State, t: State, e: Event, group: string, desired: nat, kind: string)
    requires e.Call? && e.ok && e.id in t.procs && t.procs[e.id].AllocList?
    requires AllocProgress(region, s, t, e.id, group, desired, kind)
    ensures AllocProgress(region, s, Advance(region, t, e), e.id, group, desired, kind)
  {
    assert FreeSet(s.nodes) - s.nodes.Keys == {};
  }

  lemma AllocAdvances(region: string, s: State, t: State, e: Event, group: string, desired: nat, kind: string)
    requires e.Call? && e.ok && e.id in t.procs && AllocProgress(region, s, t, e.id, group, desired, kind)
    ensures e.id in Next(region, t, e).procs && AllocProgress(region, s, Next(region, t, e), e.id, group, desired, kind)
  {
    var p := t.procs[e.id];
    if p.AllocList? {
      ListAdvances(region, s, t, e, group, desired, kind);
    } else if p.AllocScan? {
      ScanAdvances(region, s, t, e, group, desired, kind);
    } else if p.AllocPrepare? {
      PrepareAdvances(region, s, t, e, group, desired, kind);
    } else if p.AllocPatch? {
      PatchAdvances(region, s, t, e, group, desired, kind);
    }
  }

  /** An allocator whose calls all succeed and that no other process interrupts ends where the
      sequential allocation ends, whatever order it read the nodes in. */
  lemma {:induction false} SoloAllocator(region: string, s: State, es: seq<Event>, id: nat, group: string, desired: nat, kind: string)
    requires id in s.procs && s.procs[id] == AllocList(group, desired, kind) && Solo(es, id)
    ensures var t := Run(region, s, es);
            && id in t.procs && AllocProgress(region, s, t, id, group, desired, kind)
            && (t.procs[id].AllocDone? ==>
                  && t.nodes == Stamped(s.nodes, Elements(Claim(s.nodes, desired)),
                                        Stamp(group, kind, region, if group in s.groups then s.groups[group].labels else map[]))
                  && t.groups == SettledGroups(s.groups, group, desired, |FreeSet(s.nodes)|))
    decreases |es|
  {
    if |es| > 0 {
      var front := es[..|es| - 1];
      SoloAllocator(region, s, front, id, group, desired, kind);
      assert es[|es| - 1] in es;
      AllocAdvances(region, s, Run(region, s, front), es[|es| - 1], group, desired, kind);
    }
  }

  /** How far a releaser that nobody interrupts has come since state `s`. */
  ghost predicate ReleaseProgress(s: State, t: State, id: nat, group: string)
    requires id in t.procs
  {
    && t.groups == s.groups
    && match t.procs[id]
       case ReleaseList(g) => g == group && t.nodes == s.nodes
       case ReleaseScan(g, unread) =>
         g == group && unread <= s.nodes.Keys && t.nodes == PartlyReleased(s.nodes, s.nodes.Keys - unread, group)
       case ReleasePatch(g, node, remove, unread) =>
         && g == group && unread <= s.nodes.Keys && node in s.nodes.Keys - unread
         && OwnedBy(s.nodes[node], group) && remove == EksKeys(s.nodes[node])
         && t.nodes == PartlyReleased(s.nodes, s.nodes.Keys - unread - {node}, group)
       case ReleaseDone(g) => t.nodes == Released(s.nodes, group)
       case _ => false
  }

  lemma ReleaseAdvances(region: string, s: State, t: State, e: Event, group: string)
    requires e.Call? && e.ok && e.id in t.procs && ReleaseProgress(s, t, e.id, group)
    ensures ReleaseProgress(s, Advance(region, t, e), e.id, group)
  {
    match t.procs[e.id]
    case ReleaseList(_) =>
      assert s.nodes == PartlyReleased(s.nodes, {}, group);
      assert s.nodes.Keys - s.nodes.Keys == {};
    case ReleaseScan(_, unread) =>
      ReleaseAll(s.nodes, group);
      assert s.nodes.Keys - {} == s.nodes.Keys;
      if e.node in unread {
        ReadAdvances(s.nodes, unread, e.node, group);
      }
    case ReleasePatch(_, node, remove, unread) =>
      PatchReleases(s.nodes, s.nodes.Keys - unread, node, group);
    case _ =>
  }

  /** Reading a node that is not the group's releases it as it is. */
  lemma ReadAdvances(nodes: map<string, Labels>, unread: set<string>, node: string, group: string)
    requires node in unread && unread <= nodes.Keys
    ensures nodes.Keys - (unread - {node}) - {node} == nodes.Keys - unread
    ensures !OwnedBy(nodes[node], group) ==>
              PartlyReleased(nodes, nodes.Keys - unread, group) == PartlyReleased(nodes, nodes.Keys - (unread - {node}), group)
  {
  }

  lemma PatchReleases(nodes: map<string, Labels>, done: set<string>, node: string, group: string)
    requires node in done && done <= nodes.Keys && OwnedBy(nodes[node], group)
    ensures var mid := PartlyReleased(nodes, done - {node}, group);
            node in mid && mid[node := Patched(mid[node], map[], EksKeys(nodes[node]))] == PartlyReleased(nodes, done, group)
  {
    ReleaseStep(nodes, done - {node}, node, group);
    assert done - {node} + {node} == done;
    assert (nodes[node] - EksKeys(nodes[node])) + map[] == ReleasedLabels(nodes[node], group);
  }

  /** A releaser whose calls all succeed and that no other process interrupts ends where the
      sequential release ends. */
  lemma {:induction false} SoloReleaser(region: string, s: State, es: seq<Event>, id: nat, group: string)
    requires id in s.procs && s.procs[id] == ReleaseList(group) && Solo(es, id)
    ensures var t := Run(region, s, es);
            && id in t.procs && ReleaseProgress(s, t, id, group)
            && (t.procs[id].ReleaseDone? ==> t.nodes == Released(s.nodes, group) && t.groups == s.groups)
    decreases |es|
  {
    if |es| > 0 {
      var front := es[..|es| - 1];
      SoloReleaser(region, s, front, id, group);
      assert es[|es| - 1] in es;
      ReleaseAdvances(region, s, Run(region, s, front), es[|es| - 1], group);
    }
  }

  /** So a handler and its background process that run alone to the end are one step of the
      sequential pool: of creating a group ... */
  lemma SoloCreateIsPoolStep(region: string, s: State, es: seq<Event>, id: nat, name: string, desired: nat, kind: string, labels: Labels)
    requires id !in s.procs && name != "" && name !in s.groups && Solo(es, id)
    requires var t := Run(region, Next(region, s, CreateHandler(id, name, desired, kind, labels)), es);
             id in t.procs && t.procs[id].AllocDone?
    ensures var t := Run(region, Next(region, s, CreateHandler(id, name, desired, kind, labels)), es);
            PoolState(t.nodes, t.groups) == PoolNext(region, PoolState(s.nodes, s.groups), Create(name, desired, kind, labels))
  {
    SoloAllocator(region, Next(region, s, CreateHandler(id, name, desired, kind, labels)), es, id, name, desired, kind);
  }

  /** ... or of deleting one. */
  lemma SoloDeleteIsPoolStep(region: string, s: State, es: seq<Event>, id: nat, name: string)
    requires id !in s.procs && name in s.groups && Solo(es, id)
    requires var t := Run(region, Next(region, s, DeleteHandler(id, name)), es);
             id in t.procs && t.procs[id].ReleaseDone?
    ensures var t := Run(region, Next(region, s, DeleteHandler(id, name)), es);
            PoolState(t.nodes, t.groups) == PoolNext(region, PoolState(s.nodes, s.groups), Delete(name))
  {
    SoloReleaser(region, Next(region, s, DeleteHandler(id, name)), es, id, name);
  }

  /* ---------- Runs without overlap ---------- */

  /** Nothing is at work. */
  predicate Idle(s: State) {
    forall id :: id in s.procs ==> s.procs[id].AllocDone? || s.procs[id].ReleaseDone?
  }

  /** A request arrives only when nothing is at work, with what its handler checks and harmless labels;
      calls succeed. */
  ghost predicate Apart(s: State, e: Event) {
    match e
    case CreateHandler(id, name, _, _, labels) =>
      id !in s.procs ==> Idle(s) && name != "" && name !in s.groups && Harmless(name, labels)
    case DeleteHandler(id, _) => id !in s.procs ==> Idle(s)
    case Call(_, _, ok, _) => ok
  }

  ghost predicate RunsApart(region: string, s: State, es: seq<Event>) {
    |es| == 0 || (RunsApart(region, s, es[..|es| - 1]) && Apart(Run(region, s, es[..|es| - 1]), es[|es| - 1]))
  }

  ghost predicate IdleBut(s: State, id: nat) {
    forall j :: j in s.procs && j != id ==> s.procs[j].AllocDone? || s.procs[j].ReleaseDone?
  }

  /** An allocator is at work alone, since a state `m` in which its new group was the only thing that
      was not in order. `workers` are the pool's workers. */
  ghost predicate AllocatingSince(region: string, workers: set<string>, m: State, s: State, id: nat, name: string, desired: nat, kind: string) {
    && id in s.procs && IdleBut(s, id) && AllocProgress(region, m, s, id, name, desired, kind)
    && NewIn(workers, m, name, desired)
  }

  ghost predicate NewIn(workers: set<string>, m: State, name: string, desired: nat) {
    && name != "" && name in m.groups && m.groups[name] == NewGroup(desired, m.groups[name].labels)
    && Harmless(name, m.groups[name].labels)
    && PoolInv(m.nodes, m.groups - {name}) && Workers(m.nodes) == workers
  }

  /** A releaser is, since its group was taken out of a pool in order. */
  ghost predicate ReleasingSince(workers: set<string>, m: State, s: State, id: nat, name: string, group: Group) {
    && id in s.procs && IdleBut(s, id) && ReleaseProgress(m, s, id, name)
    && TakenFrom(workers, m, name, group)
  }

  ghost predicate TakenFrom(workers: set<string>, m: State, name: string, group: Group) {
    name !in m.groups && PoolInv(m.nodes, m.groups[name := group]) && Workers(m.nodes) == workers
  }

  /** The pool is in order, or one process is on its way to put it in order. */
  ghost predicate InOrder(region: string, workers: set<string>, s: State) {
    || (Idle(s) && PoolInv(s.nodes, s.groups) && Workers(s.nodes) == workers)
    || (exists m, id, name, desired, kind :: AllocatingSince(region, workers, m, s, id, name, desired, kind))
    || (exists m, id, name, group :: ReleasingSince(workers, m, s, id, name, group))
  }

  /** Settling a new group puts the pool in order. */
  lemma NewSettled(region: string, workers: set<string>, m: State, name: string, desired: nat, kind: string)
    requires NewIn(workers, m, name, desired)
    ensures var nodes := CreatedNodes(m.nodes, region, name, desired, kind, m.groups[name].labels);
            PoolInv(nodes, SettledGroups(m.groups, name, desired, |FreeSet(m.nodes)|)) && Workers(nodes) == workers
  {
    CreateKeepsPool(region, PoolState(m.nodes, m.groups - {name}), name, desired, kind, m.groups[name].labels);
    SettledInPlace(m.groups, name, desired, |FreeSet(m.nodes)|);
  }

  lemma SettledInPlace(groups: map<string, Group>, name: string, desired: nat, free: nat)
    requires name in groups && groups[name] == NewGroup(desired, groups[name].labels)
    ensures SettledGroups(groups, name, desired, free)
         == (groups - {name})[name := Settled(NewGroup(desired, groups[name].labels), desired, free)]
  {
  }

  lemma AllocatedInOrder(region: string, workers: set<string>, m: State, s: State, id: nat, name: string, desired: nat, kind: string)
    requires AllocatingSince(region, workers, m, s, id, name, desired, kind) && s.procs[id].AllocDone?
    ensures PoolInv(s.nodes, s.groups) && Workers(s.nodes) == workers
  {
    NewSettled(region, workers, m, name, desired, kind);
  }

  lemma ReleasedInOrder(workers: set<string>, m: State, s: State, id: nat, name: string, group: Group)
    requires ReleasingSince(workers, m, s, id, name, group) && s.procs[id].ReleaseDone?
    ensures PoolInv(s.nodes, s.groups) && Workers(s.nodes) == workers
  {
    DeleteKeepsPool("", PoolState(m.nodes, m.groups[name := group]), name);
    assert m.groups[name := group] - {name} == m.groups;
  }

  /** In order with nothing at work means that the pool's invariant holds. */
  lemma IdleInOrder(region: string, workers: set<string>, s: State)
    requires InOrder(region, workers, s) && Idle(s)
    ensures PoolInv(s.nodes, s.groups) && Workers(s.nodes) == workers
  {
    if m, id, name, desired, kind :| AllocatingSince(region, workers, m, s, id, name, desired, kind) {
      AllocatedInOrder(region, workers, m, s, id, name, desired, kind);
    } else if m, id, name, group :| ReleasingSince(workers, m, s, id, name, group) {
      ReleasedInOrder(workers, m, s, id, name, group);
    }
  }

  lemma CreateInOrder(region: string, workers: set<string>, s: State, e: Event)
    requires InOrder(region, workers, s) && Apart(s, e) && e.CreateHandler? && e.id !in s.procs
    ensures InOrder(region, workers, Next(region, s, e))
  {
    IdleInOrder(region, workers, s);
    var m := Next(region, s, e);
    assert m.groups - {e.name} == s.groups;
    assert AllocatingSince(region, workers, m, m, e.id, e.name, e.desired, e.kind);
  }

  lemma DeleteInOrder(region: string, workers: set<string>, s: State, e: Event)
    requires InOrder(region, workers, s) && Apart(s, e) && e.DeleteHandler? && e.id !in s.procs && e.name in s.groups
    ensures InOrder(region, workers, Next(region, s, e))
  {
    IdleInOrder(region, workers, s);
    var m := Next(region, s, e);
    assert m.groups[e.name := s.groups[e.name]] == s.groups;
    assert ReleasingSince(workers, m, m, e.id, e.name, s.groups[e.name]);
  }

  /** A process that is done does nothing. */
  lemma DoneStays(region: string, s: State, e: Event)
    requires e.Call? && e.id in s.procs && (s.procs[e.id].AllocDone? || s.procs[e.id].ReleaseDone?)
    ensures Next(region, s, e) == s
  {
  }

  lemma OtherProcKept(region: string, s: State, e: Event, j: nat)
    requires e.Call? && e.id in s.procs && j != e.id
    ensures j in Advance(region, s, e).procs <==> j in s.procs
    ensures j in s.procs ==> Advance(region, s, e).procs[j] == s.procs[j]
  {
  }

  lemma OthersIdle(region: string, s: State, e: Event)
    requires e.Call? && e.id in s.procs && IdleBut(s, e.id)
    ensures Next(region, s, e) == Advance(region, s, e) && IdleBut(Next(region, s, e), e.id)
  {
    var t := Advance(region, s, e);
    forall j | j in t.procs && j != e.id ensures t.procs[j].AllocDone? || t.procs[j].ReleaseDone? {
      OtherProcKept(region, s, e, j);
    }
  }

  lemma AllocCallInOrder(region: string, workers: set<string>, m: State, s: State, e: Event, name: string, desired: nat, kind: string)
    requires e.Call? && e.ok && AllocatingSince(region, workers, m, s, e.id, name, desired, kind)
    ensures AllocatingSince(region, workers, m, Next(region, s, e), e.id, name, desired, kind)
  {
    OthersIdle(region, s, e);
    AllocAdvances(region, m, s, e, name, desired, kind);
  }

  lemma ReleaseCallInOrder(region: string, workers: set<string>, m: State, s: State, e: Event, name: string, group: Group)
    requires e.Call? && e.ok && ReleasingSince(workers, m, s, e.id, name, group)
    ensures ReleasingSince(workers, m, Next(region, s, e), e.id, name, group)
  {
    OthersIdle(region, s, e);
    ReleaseAdvances(region, m, s, e, name);
  }

  lemma CallInOrder(region: string, workers: set<string>, s: State, e: Event)
    requires InOrder(region, workers, s) && e.Call? && e.ok && e.id in s.procs
    requires !(s.procs[e.id].AllocDone? || s.procs[e.id].ReleaseDone?)
    ensures InOrder(region, workers, Next(region, s, e))
  {
    if m, id, name, desired, kind :| AllocatingSince(region, workers, m, s, id, name, desired, kind) {
      AllocCallInOrder(region, workers, m, s, e, name, desired, kind);
    } else if m, id, name, group :| ReleasingSince(workers, m, s, id, name, group) {
      ReleaseCallInOrder(region, workers, m, s, e, name, group);
    }
  }

  lemma NextInOrder(region: string, workers: set<string>, s: State, e: Event)
    requires InOrder(region, workers, s) && Apart(s, e)
    ensures InOrder(region, workers, Next(region, s, e))
  {
    if e.id !in s.procs {
      if e.CreateHandler? {
        CreateInOrder(region, workers, s, e);
      } else if e.DeleteHandler? && e.name in s.groups {
        DeleteInOrder(region, workers, s, e);
      }
    } else if e.Call? {
      if s.procs[e.id].AllocDone? || s.procs[e.id].ReleaseDone? {
        DoneStays(region, s, e);
      } else {
        CallInOrder(region, workers, s, e);
      }
    }
  }

  /** When requests do not overlap and calls succeed, the workers are conserved in every run of steps:
      whenever nothing is at work, each worker is free or belongs to a live group, and every group's
      status counts its nodes. */
  lemma {:induction false} RunsApartConserve(region: string, s: State, es: seq<Event>)
    requires Idle(s) && PoolInv(s.nodes, s.groups) && RunsApart(region, s, es)
    ensures var t := Run(region, s, es);
            && InOrder(region, Workers(s.nodes), t)
            && (Idle(t) ==> PoolInv(t.nodes, t.groups) && Workers(t.nodes) == Workers(s.nodes))
    decreases |es|
  {
    if |es| > 0 {
      var front, e := es[..|es| - 1], es[|es| - 1];
      RunsApartConserve(region, s, front);
      NextInOrder(region, Workers(s.nodes), Run(region, s, front), e);
    }
    if Idle(Run(region, s, es)) {
      IdleInOrder(region, Workers(s.nodes), Run(region, s, es));
    }
  }

  /* ---------- What only holds without overlap ---------- */

  /** Three successful calls of process `id` at node `w`. */
  function Three(id: nat, w: string): seq<Event> {
    [Call(id, w, true, true), Call(id, w, true, true), Call(id, w, true, true)]
  }

  /** Two allocators that overlap can both be told they own the pool's only worker: both groups end
      ACTIVE with one node, and one of them has none. */
  lemma OverlapSharesANode(region: string, a: string, b: string, w: string) returns (es: seq<Event>)
    requires a != b
    ensures var t := Run(region, State(map[w := map[]], map[], map[]), es);
            && (forall e :: e in es ==> HarmlessEvent(e))
            && a in t.groups && t.groups[a].status == Active && NodesOf(t.nodes, a) == {}
            && b in t.groups && t.groups[b].status == Active && NodesOf(t.nodes, b) == {w}
  {
    var s0 := State(map[w := map[]], map[], map[]);
    var s4;
    es, s4 := BothClaim(region, a, b, w);
    var s5 := PatchedAndSettled(region, s4, 0, a, w);
    es := Then(region, s0, es, s4, Three(0, w), s5);
    var s6 := PatchedAndSettled(region, s5, 1, b, w);
    es := Then(region, s0, es, s5, Three(1, w), s6);
    assert NodesOf(s6.nodes, a) == {} && NodesOf(s6.nodes, b) == {w};
  }

  /** Two groups are requested, ... */
  lemma BothRequested(region: string, a: string, b: string, w: string) returns (es: seq<Event>, s2: State)
    requires a != b
    ensures Run(region, State(map[w := map[]], map[], map[]), es) == s2 && (forall e :: e in es ==> HarmlessEvent(e))
    ensures s2 == State(map[w := map[]], map[a := NewGroup(1, map[]), b := NewGroup(1, map[])],
                        map[0 := AllocList(a, 1, ""), 1 := AllocList(b, 1, "")])
  {
    var s0 := State(map[w := map[]], map[], map[]);
    var x, y := CreateHandler(0, a, 1, "", map[]), CreateHandler(1, b, 1, "", map[]);
    RunTwo(region, s0, x, y);
    s2 := Next(region, Next(region, s0, x), y);
    es := [x, y];
  }

  /** ... and both allocators read the node while it is free. */
  lemma BothClaim(region: string, a: string, b: string, w: string) returns (es: seq<Event>, s4: State)
    requires a != b
    ensures Run(region, State(map[w := map[]], map[], map[]), es) == s4 && (forall e :: e in es ==> HarmlessEvent(e))
    ensures s4.nodes == map[w := map[]] && s4.groups == map[a := NewGroup(1, map[]), b := NewGroup(1, map[])]
    ensures s4.procs == map[0 := AllocPrepare(a, 1, "", [w], false), 1 := AllocPrepare(b, 1, "", [w], false)]
  {
    var s0, s2 := State(map[w := map[]], map[], map[]), State(map[], map[], map[]);
    es, s2 := BothRequested(region, a, b, w);
    var s3 := Scanned(region, s2, 0, a, w);
    es := Then(region, s0, es, s2, Three(0, w), s3);
    s4 := Scanned(region, s3, 1, b, w);
    es := Then(region, s0, es, s3, Three(1, w), s4);
  }

  /** One run continued by another. */
  lemma Then(region: string, s: State, xs: seq<Event>, m: State, ys: seq<Event>, t: State) returns (es: seq<Event>)
    requires Run(region, s, xs) == m && Run(region, m, ys) == t
    requires (forall e :: e in xs ==> HarmlessEvent(e)) && (forall e :: e in ys ==> HarmlessEvent(e))
    ensures Run(region, s, es) == t && forall e :: e in es ==> HarmlessEvent(e)
  {
    RunConcat(region, s, xs, ys);
    es := xs + ys;
  }

  lemma {:induction false} RunConcat(region: string, s: State, xs: seq<Event>, ys: seq<Event>)
    ensures Run(region, s, xs + ys) == Run(region, Run(region, s, xs), ys)
    decreases |ys|
  {
    if |ys| == 0 {
      assert xs + ys == xs;
    } else {
      var front, last := ys[..|ys| - 1], ys[|ys| - 1];
      RunConcat(region, s, xs, front);
      assert (xs + ys)[..|xs + ys| - 1] == xs + front;
      assert (xs + ys)[|xs + ys| - 1] == last;
    }
  }

  lemma RunTwo(region: string, s: State, x: Event, y: Event)
    ensures Run(region, s, [x, y]) == Next(region, Next(region, s, x), y)
  {
    assert [x, y][..1] == [x] && [x][..0] == [];
    assert Run(region, s, [x]) == Next(region, s, x);
  }

  lemma RunThree(region: string, s: State, x: Event, y: Event, z: Event)
    ensures Run(region, s, [x, y, z]) == Next(region, Next(region, Next(region, s, x), y), z)
  {
    assert [x, y, z][..2] == [x, y];
    RunTwo(region, s, x, y);
  }

  lemma ListStep(region: string, s: State, id: nat, g: string, w: string)
    requires s.nodes == map[w := map[]] && id in s.procs && s.procs[id] == AllocList(g, 1, "")
    ensures Next(region, s, Call(id, w, true, true)) == s.(procs := s.procs[id := AllocScan(g, 1, "", {w}, {})])
  {
    assert s.nodes.Keys == {w};
  }

  lemma ReadStep(region: string, s: State, id: nat, g: string, w: string)
    requires s.nodes == map[w := map[]] && id in s.procs && s.procs[id] == AllocScan(g, 1, "", {w}, {})
    ensures Next(region, s, Call(id, w, true, true)) == s.(procs := s.procs[id := AllocScan(g, 1, "", {}, {w})])
  {
    assert {w} - {w} == {} && {} + {w} == {w};
  }

  lemma ChooseStep(region: string, s: State, id: nat, g: string, w: string)
    requires id in s.procs && s.procs[id] == AllocScan(g, 1, "", {}, {w})
    ensures Next(region, s, Call(id, w, true, true)) == s.(procs := s.procs[id := AllocPrepare(g, 1, "", [w], false)])
  {
    SingletonClaim(w);
    assert |{w}| == 1;
  }

  /** Process `id` lists the one node, reads it while it is free, and decides to claim it. */
  lemma Scanned(region: string, s: State, id: nat, g: string, w: string) returns (t: State)
    requires s.nodes == map[w := map[]] && id in s.procs && s.procs[id] == AllocList(g, 1, "")
    ensures t == Run(region, s, Three(id, w)) && t == s.(procs := s.procs[id := AllocPrepare(g, 1, "", [w], false)])
  {
    var e := Call(id, w, true, true);
    RunThree(region, s, e, e, e);
    ListStep(region, s, id, g, w);
    var s1 := Next(region, s, e);
    ReadStep(region, s1, id, g, w);
    var s2 := Next(region, s1, e);
    ChooseStep(region, s2, id, g, w);
    t := Next(region, s2, e);
    assert t.procs == s.procs[id := AllocPrepare(g, 1, "", [w], false)];
  }

  lemma SingletonClaim(w: string)
    ensures ChosenClaim({w}, 1) == [w]
  {
    var s := SortedSeq({w});
    SortedLength({w});
    assert |{w}| == 1 && s[0] in Elements(s);
  }

  /** Process `id` reads the group's labels, patches the node, and settles. */
  lemma PatchedAndSettled(region: string, s: State, id: nat, g: string, w: string) returns (t: State)
    requires s.nodes.Keys == {w} && id in s.procs && s.procs[id] == AllocPrepare(g, 1, "", [w], false)
    requires g in s.groups && s.groups[g].labels == map[]
    ensures && t == Run(region, s, Three(id, w))
            && t.nodes.Keys == {w} && OwnedBy(t.nodes[w], g)
            && t.groups == s.groups[g := s.groups[g].(status := Active)]
            && t.procs == s.procs[id := AllocDone(g, 1, {w})]
  {
    var e := Call(id, w, true, true);
    RunThree(region, s, e, e, e);
    var stamp := Stamp(g, "", region, map[]);
    StampFacts(g, "", region, map[]);
    var s1 := s.(procs := s.procs[id := AllocPatch(g, 1, stamp, [w], {}, 0, false)]);
    assert Next(region, s, e) == s1;
    var s2 := State(s.nodes[w := Patched(s.nodes[w], stamp, {})], s.groups, s.procs[id := AllocPatch(g, 1, stamp, [], {w}, 1, false)]);
    assert [w][1..] == [] && {} + {w} == {w};
    assert s1.procs[id := AllocPatch(g, 1, stamp, [], {w}, 1, false)] == s2.procs;
    assert Next(region, s1, e) == s2;
    t := Next(region, s2, e);
    assert s2.procs[id := AllocDone(g, 1, {w})] == s.procs[id := AllocDone(g, 1, {w})];
  }

  /** Deleting a group whose allocator is still at work leaves a node that names no live group, and
      whose releaser has already been. */
  lemma DeleteDuringAllocationStrandsANode(region: string, a: string, w: string) returns (es: seq<Event>)
    ensures var t := Run(region, State(map[w := map[]], map[], map[]), es);
            && (forall e :: e in es ==> HarmlessEvent(e))
            && a !in t.groups && NodesOf(t.nodes, a) == {w}
            && forall id :: id in t.procs ==> t.procs[id].AllocDone? || t.procs[id].ReleaseDone?
  {
    var s0 := State(map[w := map[]], map[], map[]);
    var create, delete := CreateHandler(0, a, 1, "", map[]), DeleteHandler(1, a);
    RunOne(region, s0, create);
    var s1 := Next(region, s0, create);
    es := [create];
    var s2 := Scanned(region, s1, 0, a, w);
    es := Then(region, s0, es, s1, Three(0, w), s2);
    RunOne(region, s2, delete);
    var s3 := Next(region, s2, delete);
    es := Then(region, s0, es, s2, [delete], s3);
    var s4 := ReleasedNothing(region, s3, 1, a, w);
    es := Then(region, s0, es, s3, Three(1, w), s4);
    var s5 := StrandedPatch(region, s4, 0, a, w);
    es := Then(region, s0, es, s4, Three(0, w), s5);
    assert NodesOf(s5.nodes, a) == {w};
  }

  lemma RunOne(region: string, s: State, x: Event)
    ensures Run(region, s, [x]) == Next(region, s, x)
  {
    assert [x][..0] == [];
  }

  lemma ReleasedNothing(region: string, s: State, id: nat, g: string, w: string) returns (t: State)
    requires s.nodes == map[w := map[]] && id in s.procs && s.procs[id] == ReleaseList(g)
    ensures t == Run(region, s, Three(id, w)) && t == s.(procs := s.procs[id := ReleaseDone(g)])
  {
    var e := Call(id, w, true, true);
    RunThree(region, s, e, e, e);
    assert s.nodes.Keys == {w};
    var s1 := s.(procs := s.procs[id := ReleaseScan(g, {w})]);
    assert Next(region, s, e) == s1;
    var s2 := s.(procs := s.procs[id := ReleaseScan(g, {})]);
    assert {w} - {w} == {};
    assert s1.procs[id := ReleaseScan(g, {})] == s2.procs;
    assert Next(region, s1, e) == s2;
    t := s.(procs := s.procs[id := ReleaseDone(g)]);
    assert s2.procs[id := ReleaseDone(g)] == t.procs;
  }

  lemma StrandedPatch(region: string, s: State, id: nat, g: string, w: string) returns (t: State)
    requires s.nodes.Keys == {w} && id in s.procs && s.procs[id] == AllocPrepare(g, 1, "", [w], false) && g !in s.groups
    ensures && t == Run(region, s, Three(id, w))
            && t.nodes.Keys == {w} && OwnedBy(t.nodes[w], g) && t.groups == s.groups
            && t.procs == s.procs[id := AllocDone(g, 1, {w})]
  {
    var e := Call(id, w, true, true);
    RunThree(region, s, e, e, e);
    var stamp := Stamp(g, "", region, map[]);
    StampFacts(g, "", region, map[]);
    var s1 := s.(procs := s.procs[id := AllocPatch(g, 1, stamp, [w], {}, 0, false)]);
    assert Next(region, s, e) == s1;
    var s2 := State(s.nodes[w := Patched(s.nodes[w], stamp, {})], s.groups, s.procs[id := AllocPatch(g, 1, stamp, [], {w}, 1, false)]);
    assert [w][1..] == [] && {} + {w} == {w};
    assert s1.procs[id := AllocPatch(g, 1, stamp, [], {w}, 1, false)] == s2.procs;
    assert Next(region, s1, e) == s2;
    t := Next(region, s2, e);
    assert s2.procs[id := AllocDone(g, 1, {w})] == s.procs[id := AllocDone(g, 1, {w})];
  }
}
