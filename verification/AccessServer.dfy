/** internal/api/access.go as it runs: entries are mutable records shared by reference, their policy
    lists are slices updated in place, and reconciling is a loop of API calls. Each handler is proved
    to make a step of `Access.Next`. */
module AccessServer {
  import opened Text
  import opened Model
  import opened Rbac
  import opened Kube
  import opened Access
  import Arn

  const OK := 200
  const BAD_REQUEST := 400
  const IN_USE := 409

  /** One access entry; its policies are the first `count` elements of `buf`, as in a Go slice. */
  class AccessEntry {
    const principal: string
    const username: string
    const groups: seq<string>
    var buf: array<AssociatedPolicy>
    var count: nat

    constructor (principal: string, username: string, groups: seq<string>, policies: seq<AssociatedPolicy>)
      ensures Valid() && fresh(buf)
      ensures Value() == Entry(principal, username, groups, policies)
    {
      this.principal := principal;
      this.username := username;
      this.groups := groups;
      this.buf := new AssociatedPolicy[|policies|](i requires 0 <= i < |policies| => policies[i]);
      this.count := |policies|;
      new;
      assert buf[..count] == policies;
    }

    ghost predicate Valid()
      reads this
    {
      count <= buf.Length
    }

    ghost function Policies(): seq<AssociatedPolicy>
      reads this, buf
      requires Valid()
    {
      buf[..count]
    }

    ghost function Value(): Entry
      reads this, buf
      requires Valid()
    {
      Entry(principal, username, groups, Policies())
    }

    ghost predicate Intact(value: Entry)
      reads this, buf
    {
      Valid() && Value() == value && UniqueArns(value.policies)
    }

    /** The update under the store's lock in the associate handler: the first association with this
        policy gets the new scope in place; otherwise the policy is appended, growing the array only
        when it is full. */
    method Upsert(p: AssociatedPolicy, ghost value: Entry)
      requires Intact(value)
      modifies this, buf
      ensures Intact(value.(policies := Upserted(value.policies, p)))
      ensures buf == old(buf) || fresh(buf)
    {
      ghost var was := Policies();
      UpsertedAt(was, p);
      for i := 0 to count
        invariant count == old(count) && buf == old(buf) && Policies() == was
        invariant forall j :: 0 <= j < i ==> was[j].arn != p.arn
      {
        if buf[i].arn == p.arn {
          UpsertedAtIndex(was, i, p);
          buf[i] := buf[i].(scope := p.scope);
          return;
        }
      }
      UpsertedAtIndex(was, count, p);
      if count == buf.Length {
        var bigger := new AssociatedPolicy[2 * count + 1];
        for i := 0 to count
          invariant count == old(count) && buf == old(buf) && buf[..count] == was && bigger[..i] == was[..i]
        {
          bigger[i] := buf[i];
        }
        bigger[count] := p;
        buf := bigger;
      } else {
        buf[count] := p;
      }
      count := count + 1;
    }

    /** The in-place filter of the disassociate handler. */
    method Remove(arn: string, ghost value: Entry)
      requires Intact(value)
      modifies this, buf
      ensures Intact(value.(policies := Without(value.policies, arn)))
      ensures buf == old(buf)
    {
      WithoutAt(Policies(), arn);
      count := FilterInPlace(buf, count, arn);
    }
  }

  /** Keeps the policies with another ARN, writing them over the front of the array being read. */
  method FilterInPlace(buf: array<AssociatedPolicy>, count: nat, arn: string) returns (kept: nat)
    requires count <= buf.Length
    modifies buf
    ensures kept <= count && buf[..kept] == Without(old(buf[..count]), arn)
  {
    ghost var was := buf[..count];
    kept := 0;
    for i := 0 to count
      invariant kept <= i
      invariant buf[..kept] == Without(was[..i], arn)
      invariant forall j :: i <= j < count ==> buf[j] == was[j]
    {
      var policy := buf[i];
      assert was[..i + 1] == was[..i] + [policy];
      if policy.arn != arn {
        buf[kept] := policy;
        kept := kept + 1;
      }
    }
    assert was[..count] == was;
  }

  /** `Upserted` changes the first association with the ARN, or appends. */
  lemma {:induction false} UpsertedAtIndex(s: seq<AssociatedPolicy>, i: nat, p: AssociatedPolicy)
    requires i <= |s| && (forall j :: 0 <= j < i ==> s[j].arn != p.arn)
    requires i < |s| ==> s[i].arn == p.arn
    ensures Upserted(s, p) == if i < |s| then s[i := s[i].(scope := p.scope)] else s + [p]
    decreases |s|
  {
    if s != [] {
      if i > 0 {
        UpsertedAtIndex(s[1..], i - 1, p);
      }
      assert s == [s[0]] + s[1..];
    }
  }

  method NeedsNamespaceList(policies: seq<AssociatedPolicy>) returns (needs: bool)
    ensures needs == NeedsNamespaces(policies)
  {
    for i := 0 to |policies|
      invariant forall j :: 0 <= j < i ==> policies[j].scope.kind != NAMESPACE_SCOPE
    {
      if policies[i].scope.kind == NAMESPACE_SCOPE {
        return true;
      }
    }
    return false;
  }

  ghost predicate AllNamespacesExist(bs: set<RBACBinding>, namespaces: set<string>) {
    forall b :: b in bs ==> Placeable(b.At(), namespaces)
  }

  /** The first `i` bindings are in place and every other place is as before. */
  ghost predicate Progress(before: map<Path, Obj>, bs: seq<RBACBinding>, i: nat, now: map<Path, Obj>)
    requires i <= |bs|
  {
    && (forall j :: 0 <= j < i ==> bs[j].At() in now && now[bs[j].At()] == Live(bs[j]))
    && now - Paths(Elements(bs[..i])) == before - Paths(Elements(bs[..i]))
  }

  ghost predicate Apart(bs: seq<RBACBinding>) {
    forall i, j :: 0 <= i < j < |bs| ==> bs[i].At() != bs[j].At()
  }

  lemma PathsAppend(bs: seq<RBACBinding>, i: nat)
    requires i < |bs|
    ensures Paths(Elements(bs[..i + 1])) == Paths(Elements(bs[..i])) + {bs[i].At()}
    ensures Elements(bs[..i + 1]) <= Elements(bs)
    ensures Apart(bs) ==> bs[i].At() !in Paths(Elements(bs[..i]))
  {
    assert bs[..i + 1] == bs[..i] + [bs[i]];
    AppendNew(bs[..i], bs[i]);
  }

  lemma ProgressStep(before: map<Path, Obj>, bs: seq<RBACBinding>, i: nat, now: map<Path, Obj>)
    requires i < |bs| && Apart(bs) && Progress(before, bs, i, now)
    ensures Progress(before, bs, i + 1, now[bs[i].At() := Live(bs[i])])
    ensures bs[i].At() in now <==> bs[i].At() in before
    ensures bs[i].At() in now ==> now[bs[i].At()] == before[bs[i].At()]
  {
    PathsAppend(bs, i);
    var p := bs[i].At();
    var done := Paths(Elements(bs[..i]));
    assert p in now <==> p in now - done;
    assert p in before <==> p in before - done;
    assert now[p := Live(bs[i])] - (done + {p}) == (now - done) - {p};
    assert before - (done + {p}) == (before - done) - {p};
  }

  /** The call for binding `i` failed and left its place in some state. */
  lemma StoppedPartly(before: map<Path, Obj>, bs: seq<RBACBinding>, i: nat, mid: map<Path, Obj>, now: map<Path, Obj>)
    requires i < |bs| && Apart(bs) && Progress(before, bs, i, mid)
    requires var p := bs[i].At();
             now - {p} == mid - {p} && (p in now ==> now[p] == Live(bs[i]) || (p in mid && now[p] == mid[p]))
    ensures PartlyApplied(before, Elements(bs), now)
  {
    ProgressStep(before, bs, i, mid);
    PathsAppend(bs, i);
    var p, all := bs[i].At(), Paths(Elements(bs));
    var done := Paths(Elements(bs[..i]));
    assert done + {p} <= all;
    assert now - all == (now - {p}) - all && mid - all == (mid - {p}) - all;
    assert mid - all == (mid - done) - all && before - all == (before - done) - all;
    forall b | b in Elements(bs) && b.At() in now
      ensures now[b.At()] == Live(b) || (b.At() in before && now[b.At()] == before[b.At()])
    {
      var j :| 0 <= j < |bs| && bs[j] == b;
      if j != i {
        assert b.At() in now - {p} && b.At() in mid && now[b.At()] == mid[b.At()];
        if i < j {
          assert b.At() !in done by { NotAmong(bs, i, j); }
          assert b.At() in mid - done;
        }
      }
    }
  }

  lemma NotAmong(bs: seq<RBACBinding>, i: nat, j: nat)
    requires i <= j < |bs| && Apart(bs)
    ensures bs[j].At() !in Paths(Elements(bs[..i]))
  {
  }

  lemma FinishedFully(before: map<Path, Obj>, bs: seq<RBACBinding>, now: map<Path, Obj>)
    requires Progress(before, bs, |bs|, now)
    ensures Applied(before, Elements(bs), now) && PartlyApplied(before, Elements(bs), now)
  {
    assert bs[..|bs|] == bs;
  }

  lemma SameRole(h: Hash, e: Entry, existing: set<string>, b: RBACBinding, objects: map<Path, Obj>)
    requires RolesFit(h, objects) && b in Derived(h, e, existing)
    ensures b.At() in objects ==> objects[b.At()].role == b.role
  {
    DerivedFacts(h, e, existing, b);
  }

  /** The list of an entry's bindings, given the namespaces that were listed. */
  method EntryBindings(h: Hash, e: Entry, names: seq<string>) returns (bs: seq<RBACBinding>)
    requires UniqueArns(e.policies)
    ensures Elements(bs) == Wanted(h, e.principal, e.Subject(), e.policies, Elements(names)) && Apart(bs)
  {
    bs := BindingsFor(h, e.principal, e.policies, e.Subject(), names);
    forall i, j | 0 <= i < j < |bs| ensures bs[i].At() != bs[j].At() {
      LessTotal(bs[i].ns, bs[i].ns);
      LessTotal(bs[i].name, bs[i].name);
    }
  }

  ghost predicate RolesKept(bs: set<RBACBinding>, objects: map<Path, Obj>) {
    forall b :: b in bs && b.At() in objects ==> objects[b.At()].role == b.role
  }

  /** The apply loop of a reconcile, stopping at the first failure. */
  method ApplyBindings(api: ApiServer, bs: seq<RBACBinding>) returns (ok: bool, ghost recreated: bool)
    requires api.Valid() && Apart(bs)
    modifies api`objects, api`faults
    ensures api.Valid()
    ensures PartlyApplied(old(api.objects), Elements(bs), api.objects)
    ensures ok ==> Applied(old(api.objects), Elements(bs), api.objects)
    ensures api.reliable ==> (ok <==> AllNamespacesExist(Elements(bs), api.namespaces))
    ensures api.reliable && RolesKept(Elements(bs), old(api.objects)) ==> !recreated
  {
    recreated := false;
    ghost var before := api.objects;
    for i := 0 to |bs|
      invariant api.Valid() && Progress(before, bs, i, api.objects)
      invariant api.reliable && RolesKept(Elements(bs), before) ==> !recreated
      invariant api.reliable ==> forall j :: 0 <= j < i ==> Placeable(bs[j].At(), api.namespaces)
    {
      ghost var mid := api.objects;
      ProgressStep(before, bs, i, mid);
      assert bs[i] in Elements(bs);
      var err, again := api.CreateOrReplace(bs[i].At(), Live(bs[i]));
      recreated := recreated || again;
      if err.Some? {
        StoppedPartly(before, bs, i, mid, api.objects);
        return false, recreated;
      }
    }
    FinishedFully(before, bs, api.objects);
    return true, recreated;
  }

  /** Puts an entry's bindings in place. On a reliable API server that succeeds exactly when every
      namespace it names exists, and no binding ever has to be deleted to change its role. */
  method ReconcileAccessEntry(h: Hash, api: ApiServer, e: Entry) returns (ok: bool, ghost recreated: bool)
    requires api.Valid() && UniqueArns(e.policies)
    modifies api`objects, api`faults
    ensures api.Valid()
    ensures PartlyApplied(old(api.objects), Derived(h, e, api.namespaces), api.objects)
    ensures ok ==> Applied(old(api.objects), Derived(h, e, api.namespaces), api.objects)
    ensures api.reliable ==> (ok <==> AllNamespacesExist(Derived(h, e, api.namespaces), api.namespaces))
    ensures api.reliable && RolesFit(h, old(api.objects)) ==> !recreated
  {
    var names := [];
    var needs := NeedsNamespaceList(e.policies);
    if needs {
      var listed := api.ListNamespaceNames();
      if listed.None? {
        return false, false;
      }
      names := listed.value;
    }
    assert Elements(names) == Visible(e.policies, api.namespaces);
    var bs := EntryBindings(h, e, names);
    if RolesFit(h, api.objects) {
      forall b | b in Elements(bs) && b.At() in api.objects ensures api.objects[b.At()].role == b.role {
        SameRole(h, e, api.namespaces, b, api.objects);
      }
      assert RolesKept(Elements(bs), api.objects);
    }
    ok, recreated := ApplyBindings(api, bs);
  }

  lemma RemovedPartly(before: map<Path, Obj>, some: set<RBACBinding>, all: set<RBACBinding>, now: map<Path, Obj>)
    requires some <= all && now == before - Paths(some)
    ensures PartlyRemoved(before, all, now)
  {
    assert Paths(some) <= Paths(all);
    assert now - Paths(all) == before - Paths(all);
  }

  /** The delete loop; a binding that is already gone does not stop it. */
  method DeleteBindings(api: ApiServer, bs: seq<RBACBinding>) returns (ok: bool)
    requires api.Valid()
    modifies api`objects, api`faults
    ensures api.Valid()
    ensures ok ==> api.objects == old(api.objects) - Paths(Elements(bs))
    ensures PartlyRemoved(old(api.objects), Elements(bs), api.objects)
    ensures ok <==> api.faults == old(api.faults)
    ensures api.reliable ==> ok
  {
    ghost var before := api.objects;
    assert before - {} == before;
    for i := 0 to |bs|
      invariant api.Valid() && api.faults == old(api.faults)
      invariant api.objects == before - Paths(Elements(bs[..i]))
    {
      PathsAppend(bs, i);
      ghost var mid := api.objects;
      assert before - Paths(Elements(bs[..i + 1])) == mid - {bs[i].At()};
      assert bs[i].At() !in mid ==> mid - {bs[i].At()} == mid;
      var err := api.Do(Delete, bs[i].At(), Live(bs[i]));
      if err.Some? {
        var missing := HasStatus(err, NOT_FOUND);
        if !missing {
          RemovedPartly(before, Elements(bs[..i]), Elements(bs), mid);
          RemovedPartly(before, Elements(bs[..i + 1]), Elements(bs), mid - {bs[i].At()});
          return false;
        }
      }
    }
    assert bs[..|bs|] == bs;
    RemovedPartly(before, Elements(bs), Elements(bs), api.objects);
    return true;
  }

  /** Deletes an entry's bindings. A failure to list namespaces (then `saw` is false) is ignored: the
      call succeeds unless a delete fails, and deletes what can be derived without the list. */
  method DeleteBindingsFor(h: Hash, api: ApiServer, e: Entry) returns (ok: bool, ghost saw: bool)
    requires api.Valid() && UniqueArns(e.policies)
    modifies api`objects, api`faults
    ensures api.Valid()
    ensures PartlyRemoved(old(api.objects), Derived(h, e, api.namespaces), api.objects)
    ensures ok <==> api.faults == old(api.faults) + if saw then 0 else 1
    ensures ok ==> api.objects == old(api.objects) - Paths(if saw then Derived(h, e, api.namespaces) else Unlisted(h, e))
    ensures api.reliable ==> ok && saw
  {
    var names := [];
    var needs := NeedsNamespaceList(e.policies);
    saw := true;
    if needs {
      var listed := api.ListNamespaceNames();
      if listed.Some? {
        names := listed.value;
      } else {
        saw := false;
      }
    }
    assert saw ==> Elements(names) == Visible(e.policies, api.namespaces);
    assert !saw ==> names == [] && Elements(names) == {};
    var bs := EntryBindings(h, e, names);
    Monotone(h, e, Elements(names), api.namespaces);
    ghost var before := api.objects;
    ok := DeleteBindings(api, bs);
    WeakenPartlyRemoved(before, Elements(bs), Derived(h, e, api.namespaces), api.objects);
  }

  lemma WeakenPartlyRemoved(before: map<Path, Obj>, some: set<RBACBinding>, all: set<RBACBinding>, now: map<Path, Obj>)
    requires some <= all && PartlyRemoved(before, some, now)
    ensures PartlyRemoved(before, all, now)
  {
    assert Paths(some) <= Paths(all);
    assert now - Paths(all) == (now - Paths(some)) - Paths(all);
    assert before - Paths(all) == (before - Paths(some)) - Paths(all);
  }

  /** The bindings computed without the namespace list are among those computed with it. */
  lemma Monotone(h: Hash, e: Entry, listed: set<string>, existing: set<string>)
    requires listed == Visible(e.policies, existing) || listed == {}
    ensures Wanted(h, e.principal, e.Subject(), e.policies, listed) <= Derived(h, e, existing)
  {
    forall b | b in Wanted(h, e.principal, e.Subject(), e.policies, listed) ensures b in Derived(h, e, existing) {
      var vis := Visible(e.policies, existing);
      var p :| p in e.policies && b in PolicyBindings(h, e.principal, e.Subject(), p, listed);
      if p.scope.kind != CLUSTER_SCOPE {
        var pat :| pat in p.scope.namespaces && b.ns in ExpandOne(pat, listed);
        assert b.ns in ExpandOne(pat, vis);
        assert b.ns in ExpandSet(p.scope.namespaces, vis);
      }
      assert b in PolicyBindings(h, e.principal, e.Subject(), p, vis);
    }
  }

  /** Some association's wildcards grant an existing namespace that it does not also name. */
  ghost predicate HidesWildcard(policies: seq<AssociatedPolicy>, visible: set<string>) {
    exists p, n :: p in policies && n in visible && ByWildcardOnly(p, n)
  }

  ghost predicate ByWildcardOnly(p: AssociatedPolicy, n: string) {
    && IsKnownAccessPolicy(p.arn) && p.scope.kind != CLUSTER_SCOPE
    && !(n in p.scope.namespaces && '*' !in n)
    && exists pattern :: pattern in p.scope.namespaces && '*' in pattern && HasPrefix(n, TrimStar(pattern))
  }

  /** So an ignored error leaves nothing behind if and only if no association grants an existing
      namespace by a wildcard alone. */
  lemma UnlistedIsCompleteIff(h: Hash, e: Entry, existing: set<string>)
    requires UniqueArns(e.policies)
    ensures Unlisted(h, e) == Derived(h, e, existing) <==> !HidesWildcard(e.policies, Visible(e.policies, existing))
  {
    var visible := Visible(e.policies, existing);
    if p, n :| p in e.policies && n in visible && ByWildcardOnly(p, n) {
      HiddenBinding(h, e, existing, p, n);
    } else {
      Monotone(h, e, {}, existing);
      forall b | b in Derived(h, e, existing) ensures b in Unlisted(h, e) {
        NothingHidden(h, e, existing, b);
      }
    }
  }

  lemma HiddenBinding(h: Hash, e: Entry, existing: set<string>, p: AssociatedPolicy, n: string)
    requires UniqueArns(e.policies) && p in e.policies && n in Visible(e.policies, existing) && ByWildcardOnly(p, n)
    ensures var b := MakeBinding(h, e.principal, e.Subject(), p.arn, n);
            b in Derived(h, e, existing) && b.At() !in Paths(Unlisted(h, e))
  {
    var visible := Visible(e.policies, existing);
    var pattern :| pattern in p.scope.namespaces && '*' in pattern && HasPrefix(n, TrimStar(pattern));
    assert n in ExpandOne(pattern, visible);
    assert n in ExpandSet(p.scope.namespaces, visible);
    var b := MakeBinding(h, e.principal, e.Subject(), p.arn, n);
    assert b in PolicyBindings(h, e.principal, e.Subject(), p, visible);
    forall c | c in Unlisted(h, e) ensures c.At() != b.At() {
      NotUnlisted(h, e, p, n, c);
    }
  }

  lemma NotUnlisted(h: Hash, e: Entry, p: AssociatedPolicy, n: string, c: RBACBinding)
    requires UniqueArns(e.policies) && p in e.policies && ByWildcardOnly(p, n) && c in Unlisted(h, e)
    ensures c.ns != n || c.name != BindingName(h, e.principal, p.arn, n)
  {
    var q := UnlistedSource(h, e, c);
    WildcardOnlyUnlisted(p, n);
    if c.ns == n && c.name == BindingName(h, e.principal, p.arn, n) {
      NameDeterminesPolicy(h, e.principal, p.arn, e.principal, q.arn, n);
    }
  }

  lemma UnlistedSource(h: Hash, e: Entry, c: RBACBinding) returns (q: AssociatedPolicy)
    requires c in Unlisted(h, e)
    ensures q in e.policies && IsKnownAccessPolicy(q.arn) && c.ns in Granted(q.scope, {})
    ensures c.name == BindingName(h, e.principal, q.arn, c.ns)
  {
    q :| q in e.policies && c in PolicyBindings(h, e.principal, e.Subject(), q, {});
  }

  lemma WildcardOnlyUnlisted(p: AssociatedPolicy, n: string)
    requires ByWildcardOnly(p, n)
    ensures n !in Granted(p.scope, {})
  {
  }

  lemma NothingHidden(h: Hash, e: Entry, existing: set<string>, b: RBACBinding)
    requires b in Derived(h, e, existing) && !HidesWildcard(e.policies, Visible(e.policies, existing))
    ensures b in Unlisted(h, e)
  {
    var visible := Visible(e.policies, existing);
    var p :| p in e.policies && b in PolicyBindings(h, e.principal, e.Subject(), p, visible);
    if p.scope.kind != CLUSTER_SCOPE {
      var pattern :| pattern in p.scope.namespaces && b.ns in ExpandOne(pattern, visible);
      if '*' in pattern {
        assert !ByWildcardOnly(p, b.ns);
        assert b.ns in ExpandOne(b.ns, {});
      } else {
        assert b.ns in ExpandOne(pattern, {});
      }
      assert b.ns in ExpandSet(p.scope.namespaces, {});
    }
    assert b in PolicyBindings(h, e.principal, e.Subject(), p, {});
  }

  /* ---------- The facts that make a handler's effect a step ---------- */

  lemma ReconcileIsStep(h: Hash, creator: string, s: State, op: Op, calls: Calls, t: State, middle: map<Path, Obj>)
    requires Target(creator, s, op).Some? && s.ready
    requires var (key, after) := Target(creator, s, op).value;
             && t.entries == (if after.Some? then s.entries[key := after.value] else s.entries - {key})
             && PartlyRemoved(s.objects, Removed(h, s, op, key), middle)
             && PartlyApplied(middle, Added(h, s, after), t.objects)
             && (calls.revoked ==> middle == s.objects - Paths(Removed(h, s, op, key)))
             && (calls.applied ==> Applied(middle, Added(h, s, after), t.objects))
    requires t.namespaces == s.namespaces && t.ready
    requires forall p :: p in t.objects ==> Placeable(p, t.namespaces)
    ensures Next(h, creator, s, op, calls, t)
  {
    var (key, after) := Target(creator, s, op).value;
    assert ThroughMiddle(h, s, op, calls, t, key, after, middle);
  }

  lemma OnlyAdds(h: Hash, creator: string, s: State, op: Op, calls: Calls, t: State)
    requires Target(creator, s, op).Some? && s.ready && (op.Associate? || op.Bootstrap?)
    requires var (key, after) := Target(creator, s, op).value;
             && after.Some? && t.entries == s.entries[key := after.value]
             && PartlyApplied(s.objects, Added(h, s, after), t.objects)
             && (calls.applied ==> Applied(s.objects, Added(h, s, after), t.objects))
    requires t.namespaces == s.namespaces && t.ready
    requires forall p :: p in t.objects ==> Placeable(p, t.namespaces)
    ensures Next(h, creator, s, op, calls, t)
  {
    assert Paths({}) == {};
    assert s.objects - {} == s.objects;
    ReconcileIsStep(h, creator, s, op, calls, t, s.objects);
  }

  lemma OnlyRemoves(h: Hash, creator: string, s: State, op: Op, calls: Calls, t: State)
    requires Target(creator, s, op).Some? && s.ready && op.DeleteEntry?
    requires var (key, _) := Target(creator, s, op).value;
             && t.entries == s.entries - {key}
             && PartlyRemoved(s.objects, Removed(h, s, op, key), t.objects)
             && (calls.revoked ==> t.objects == s.objects - Paths(Removed(h, s, op, key)))
    requires t.namespaces == s.namespaces && t.ready
    requires forall p :: p in t.objects ==> Placeable(p, t.namespaces)
    ensures Next(h, creator, s, op, calls, t)
  {
    assert Paths({}) == {};
    assert t.objects - {} == t.objects;
    ReconcileIsStep(h, creator, s, op, calls, t, t.objects);
  }

  /** What deleting an entry's bindings does: nothing until the API server can be reached. */
  ghost predicate Revoked(h: Hash, ready: bool, namespaces: set<string>, e: Entry, clean: bool, before: map<Path, Obj>, after: map<Path, Obj>) {
    if ready then
      && PartlyRemoved(before, Derived(h, e, namespaces), after)
      && (clean ==> after == before - Paths(Derived(h, e, namespaces)))
    else clean && after == before
  }

  /** What reconciling an entry does. */
  ghost predicate Granting(h: Hash, ready: bool, namespaces: set<string>, e: Entry, clean: bool, before: map<Path, Obj>, after: map<Path, Obj>) {
    if ready then
      && PartlyApplied(before, Derived(h, e, namespaces), after)
      && (clean ==> Applied(before, Derived(h, e, namespaces), after))
    else clean && after == before
  }

  lemma BootstrapIsStep(h: Hash, creator: string, s: State, clean: bool, t: State)
    requires s.ready
    requires var e := CreatorEntry(creator);
             && t == s.(entries := s.entries[creator := e], objects := t.objects)
             && Granting(h, true, s.namespaces, e, clean, s.objects, t.objects)
    requires forall p :: p in t.objects ==> Placeable(p, t.namespaces)
    ensures Next(h, creator, s, Bootstrap, Calls(true, clean), t)
    ensures AllNamespacesExist(Derived(h, CreatorEntry(creator), s.namespaces), s.namespaces)
  {
    OnlyAdds(h, creator, s, Bootstrap, Calls(true, clean), t);
  }

  lemma DeleteIsStep(h: Hash, creator: string, s: State, principal: string, key: string, clean: bool, t: State)
    requires LookupKey(s.entries.Keys, principal) == Some(key)
    requires t == s.(entries := s.entries - {key}, objects := t.objects)
    requires Revoked(h, s.ready, s.namespaces, s.entries[key], clean, s.objects, t.objects)
    requires forall p :: p in t.objects ==> Placeable(p, t.namespaces)
    ensures Next(h, creator, s, DeleteEntry(principal), Calls(clean, true), t)
  {
    if s.ready {
      OnlyRemoves(h, creator, s, DeleteEntry(principal), Calls(clean, true), t);
    }
  }

  lemma AssociateIsStep(h: Hash, creator: string, s: State, principal: string, policy: string, scope: Option<AccessScope>,
                        key: string, clean: bool, t: State)
    requires AssociateAccepted(s.entries.Keys, principal, policy, scope) && LookupKey(s.entries.Keys, principal) == Some(key)
    requires var e := s.entries[key];
             var e' := e.(policies := Upserted(e.policies, AssociatedPolicy(policy, ScopeOf(scope))));
             && t == s.(entries := s.entries[key := e'], objects := t.objects)
             && Granting(h, s.ready, s.namespaces, e', clean, s.objects, t.objects)
    requires forall p :: p in t.objects ==> Placeable(p, t.namespaces)
    ensures Next(h, creator, s, Associate(principal, policy, scope), Calls(true, clean), t)
  {
    if s.ready {
      OnlyAdds(h, creator, s, Associate(principal, policy, scope), Calls(true, clean), t);
    }
  }

  lemma DisassociateIsStep(h: Hash, creator: string, s: State, principal: string, policy: string, key: string,
                           revoked: bool, clean: bool, t: State, middle: map<Path, Obj>)
    requires LookupKey(s.entries.Keys, principal) == Some(key)
    requires var e := s.entries[key];
             var e' := e.(policies := Without(e.policies, policy));
             && t == s.(entries := s.entries[key := e'], objects := t.objects)
             && Revoked(h, s.ready, s.namespaces, e, revoked, s.objects, middle)
             && Granting(h, s.ready, s.namespaces, e', clean, middle, t.objects)
    requires forall p :: p in t.objects ==> Placeable(p, t.namespaces)
    ensures Next(h, creator, s, Disassociate(principal, policy), Calls(revoked, clean), t)
  {
    if s.ready {
      ReconcileIsStep(h, creator, s, Disassociate(principal, policy), Calls(revoked, clean), t, middle);
    }
  }

  lemma RejectedStep(h: Hash, creator: string, s: State, op: Op)
    requires Target(creator, s, op).None? && (op.DeleteEntry? || op.Associate? || op.Disassociate?)
    ensures Next(h, creator, s, op, CLEAN, s)
  {
  }

  lemma CreateStep(h: Hash, creator: string, s: State, principal: string, username: string, groups: seq<string>)
    ensures Next(h, creator, s, CreateEntry(principal, username, groups), CLEAN,
                 if CreateAccepted(s.entries.Keys, principal) then
                   s.(entries := s.entries[Arn.Canonicalize(principal).value := NewEntry(principal, username, groups)])
                 else s)
  {
  }

  /** The access handlers of one cluster. `model` is the map of entry values; `owner` gives each
      record and each policy array to one key, so that no two entries share either. */
  class Server {
    const h: Hash
    const creator: string
    const api: ApiServer
    var entries: map<string, AccessEntry>
    var ready: bool
    ghost var model: map<string, Entry>
    ghost var owner: map<object, string>

    constructor (h: Hash, creator: string, api: ApiServer)
      requires api.Valid() && api.objects == map[] && api.namespaces == {}
      ensures Valid() && Abstract() == State(map[], map[], {}, false)
      ensures this.h == h && this.creator == creator && this.api == api
    {
      this.h := h;
      this.creator := creator;
      this.api := api;
      this.entries := map[];
      this.ready := false;
      this.model := map[];
      this.owner := map[];
    }

    /** The entry under `key` has the value the model says, and its record and array are its own. */
    ghost predicate Holds(key: string)
      requires key in entries
      reads this, owner.Keys
    {
      && entries[key] in owner && owner[entries[key]] == key
      && entries[key].buf in owner && owner[entries[key].buf] == key
      && key in model && entries[key].Intact(model[key])
    }

    ghost predicate EntriesValid()
      reads this, owner.Keys
    {
      && model.Keys == entries.Keys && api !in owner
      && forall k {:trigger Holds(k)} :: k in entries ==> Holds(k)
    }

    ghost predicate Valid()
      reads this, api, owner.Keys
    {
      api.Valid() && EntriesValid()
    }

    ghost function Abstract(): State
      reads this, api
    {
      State(model, api.objects, api.namespaces, ready)
    }

    method HandleCreate(principal: string, username: string, groups: seq<string>) returns (code: int)
      requires Valid()
      modifies this`entries, this`model, this`owner
      ensures Valid() && Next(h, creator, old(Abstract()), CreateEntry(principal, username, groups), CLEAN, Abstract())
      ensures code == OK <==> CreateAccepted(old(entries).Keys, principal)
      ensures code == IN_USE <==> principal != "" && Arn.Canonicalize(principal).Ok? && Arn.Canonicalize(principal).value in old(entries)
    {
      CreateStep(h, creator, Abstract(), principal, username, groups);
      if principal == "" {
        return BAD_REQUEST;
      }
      var canonical := Arn.Canonicalize(principal);
      if canonical.Err? {
        return BAD_REQUEST;
      }
      if canonical.value in entries {
        return IN_USE;
      }
      StoreNew(canonical.value, NewEntry(principal, username, groups));
      return OK;
    }

    /** Puts a new record in the map, in place of any record with the same key. */
    method StoreNew(key: string, value: Entry)
      requires Valid() && UniqueArns(value.policies)
      modifies this`entries, this`model, this`owner
      ensures Valid() && key in entries
      ensures entries.Keys == old(entries).Keys + {key} && model == old(model)[key := value]
    {
      var entry := new AccessEntry(value.principal, value.username, value.groups, value.policies);
      entries := entries[key := entry];
      model := model[key := value];
      owner := owner[entry := key][entry.buf := key];
      forall k | k in entries ensures Holds(k) {
        assert k != key ==> old(Holds(k));
      }
    }

    method ReadEntry(key: string) returns (value: Entry)
      requires Valid() && key in entries
      ensures key in model && value == model[key] && UniqueArns(value.policies)
    {
      assert Holds(key);
      var entry := entries[key];
      value := Entry(entry.principal, entry.username, entry.groups, entry.buf[..entry.count]);
    }

    method DropEntry(key: string)
      requires Valid() && key in entries
      modifies this`entries, this`model, this`owner
      ensures Valid() && entries == old(entries) - {key} && model == old(model) - {key}
    {
      entries := entries - {key};
      model := model - {key};
      forall k | k in entries ensures Holds(k) {
        assert old(Holds(k));
      }
    }

    /** Every namespace in which the entry's bindings belong exists. */
    ghost predicate NamespacesExist(key: string)
      reads this, api
    {
      key in model ==> AllNamespacesExist(Derived(h, model[key], api.namespaces), api.namespaces)
    }

    /** Reconciles the entry under `key`, if the API server can be reached. */
    method Reconcile(key: string) returns (clean: bool)
      requires Valid() && key in entries
      modifies api`objects, api`faults
      ensures Valid() && key in model
      ensures Granting(h, ready, api.namespaces, model[key], clean, old(api.objects), api.objects)
      ensures api.reliable && NamespacesExist(key) ==> clean
    {
      clean := true;
      if ready {
        var entry := ReadEntry(key);
        ghost var recreated;
        clean, recreated := ReconcileAccessEntry(h, api, entry);
      }
    }

    /** Deletes an entry's bindings, if the API server can be reached. */
    method Revoke(entry: Entry) returns (ghost clean: bool)
      requires Valid() && UniqueArns(entry.policies)
      modifies api`objects, api`faults
      ensures Valid()
      ensures Revoked(h, ready, api.namespaces, entry, clean, old(api.objects), api.objects)
      ensures api.reliable ==> clean
    {
      clean := true;
      if ready {
        var ok;
        ghost var saw;
        ok, saw := DeleteBindingsFor(h, api, entry);
        clean := ok && saw;
      }
    }

    /** The entry goes first; its bindings are computed from the record still held. */
    method RemoveEntry(key: string) returns (ghost clean: bool)
      requires Valid() && key in entries
      modifies this`entries, this`model, this`owner, api`objects, api`faults
      ensures Valid() && key in old(model) && model == old(model) - {key}
      ensures Revoked(h, ready, api.namespaces, old(model)[key], clean, old(api.objects), api.objects)
      ensures api.reliable ==> clean
    {
      var entry := ReadEntry(key);
      DropEntry(key);
      clean := Revoke(entry);
    }

    method HandleDelete(principal: string) returns (code: int, ghost clean: bool)
      requires Valid()
      modifies this`entries, this`model, this`owner, api`objects, api`faults
      ensures Valid() && Next(h, creator, old(Abstract()), DeleteEntry(principal), Calls(clean, true), Abstract())
      ensures code == OK <==> LookupKey(old(model).Keys, principal).Some?
      ensures api.reliable ==> clean
    {
      ghost var s := Abstract();
      var key := LookupKey(entries.Keys, principal);
      if key.None? {
        RejectedStep(h, creator, s, DeleteEntry(principal));
        return NOT_FOUND, true;
      }
      clean := RemoveEntry(key.value);
      DeleteIsStep(h, creator, s, principal, key.value, clean, Abstract());
      return OK, clean;
    }

    /** The record keeps its identity, so the pointer the handler looked up first sees the update. */
    method UpsertEntry(key: string, p: AssociatedPolicy)
      requires Valid() && key in entries
      modifies this`model, this`owner, entries[key], entries[key].buf
      ensures Valid() && key in old(model)
      ensures model == old(model)[key := old(model)[key].(policies := Upserted(old(model)[key].policies, p))]
    {
      assert Holds(key);
      var target := entries[key];
      target.Upsert(p, model[key]);
      model := model[key := model[key].(policies := Upserted(model[key].policies, p))];
      owner := owner[target.buf := key];
      forall k | k in entries ensures Holds(k) {
        assert old(Holds(k));
      }
    }

    method RemovePolicy(key: string, policy: string)
      requires Valid() && key in entries
      modifies this`model, this`owner, entries[key], entries[key].buf
      ensures Valid() && key in old(model)
      ensures model == old(model)[key := old(model)[key].(policies := Without(old(model)[key].policies, policy))]
    {
      assert Holds(key);
      var target := entries[key];
      target.Remove(policy, model[key]);
      model := model[key := model[key].(policies := Without(model[key].policies, policy))];
      forall k | k in entries ensures Holds(k) {
        assert old(Holds(k));
      }
    }

    method AssociateEntry(key: string, p: AssociatedPolicy) returns (ghost clean: bool)
      requires Valid() && key in entries
      modifies this`model, this`owner, entries[key], entries[key].buf, api`objects, api`faults
      ensures Valid() && key in old(model)
      ensures model == old(model)[key := old(model)[key].(policies := Upserted(old(model)[key].policies, p))]
      ensures Granting(h, ready, api.namespaces, model[key], clean, old(api.objects), api.objects)
      ensures api.reliable && NamespacesExist(key) ==> clean
    {
      UpsertEntry(key, p);
      var ok := Reconcile(key);
      clean := ok;
    }

    method HandleAssociate(principal: string, policy: string, scope: Option<AccessScope>) returns (code: int, ghost clean: bool)
      requires Valid()
      modifies this`model, this`owner, owner.Keys, api`objects, api`faults
      ensures Valid() && Next(h, creator, old(Abstract()), Associate(principal, policy, scope), Calls(true, clean), Abstract())
      ensures code == OK <==> AssociateAccepted(old(model).Keys, principal, policy, scope)
      ensures code == NOT_FOUND <==> LookupKey(old(model).Keys, principal).None?
      ensures api.reliable && (code == OK ==> NamespacesExist(LookupKey(old(model).Keys, principal).value)) ==> clean
    {
      ghost var s, op := Abstract(), Associate(principal, policy, scope);
      var key := LookupKey(entries.Keys, principal);
      if key.None? {
        RejectedStep(h, creator, s, op);
        return NOT_FOUND, true;
      }
      var wanted := ScopeOf(scope);
      if !IsKnownAccessPolicy(policy) || (wanted.kind == NAMESPACE_SCOPE && |wanted.namespaces| == 0) {
        RejectedStep(h, creator, s, op);
        return BAD_REQUEST, true;
      }
      assert Holds(key.value);
      clean := AssociateEntry(key.value, AssociatedPolicy(policy, wanted));
      AssociateIsStep(h, creator, s, principal, policy, scope, key.value, clean, Abstract());
      return OK, clean;
    }

    /** Old bindings go before the list changes, because afterwards the removed policy's are no
        longer derivable; then whatever survived is applied again. */
    method DisassociateEntry(key: string, policy: string) returns (ghost revoked: bool, ghost clean: bool, ghost middle: map<Path, Obj>)
      requires Valid() && key in entries
      modifies this`model, this`owner, entries[key], entries[key].buf, api`objects, api`faults
      ensures Valid() && key in old(model)
      ensures model == old(model)[key := old(model)[key].(policies := Without(old(model)[key].policies, policy))]
      ensures Revoked(h, ready, api.namespaces, old(model)[key], revoked, old(api.objects), middle)
      ensures Granting(h, ready, api.namespaces, model[key], clean, middle, api.objects)
      ensures api.reliable && NamespacesExist(key) ==> revoked && clean
    {
      var entry := ReadEntry(key);
      revoked := Revoke(entry);
      middle := api.objects;
      RemovePolicy(key, policy);
      var ok := Reconcile(key);
      clean := ok;
    }

    method HandleDisassociate(principal: string, policy: string) returns (code: int, ghost calls: Calls)
      requires Valid()
      modifies this`model, this`owner, owner.Keys, api`objects, api`faults
      ensures Valid() && Next(h, creator, old(Abstract()), Disassociate(principal, policy), calls, Abstract())
      ensures code == OK <==> LookupKey(old(model).Keys, principal).Some?
      ensures api.reliable && (code == OK ==> NamespacesExist(LookupKey(old(model).Keys, principal).value)) ==> calls == CLEAN
    {
      ghost var s := Abstract();
      var key := LookupKey(entries.Keys, principal);
      if key.None? {
        RejectedStep(h, creator, s, Disassociate(principal, policy));
        return NOT_FOUND, CLEAN;
      }
      ghost var revoked, clean, middle;
      assert Holds(key.value);
      revoked, clean, middle := DisassociateEntry(key.value, policy);
      DisassociateIsStep(h, creator, s, principal, policy, key.value, revoked, clean, Abstract(), middle);
      return OK, Calls(revoked, clean);
    }

    /** Storing and reconciling the cluster creator's entry, under the configured ARN as it stands. */
    method BootstrapCreatorAccess() returns (ghost clean: bool)
      requires Valid() && ready
      modifies this`entries, this`model, this`owner, api`objects, api`faults
      ensures Valid() && Next(h, creator, old(Abstract()), Bootstrap, Calls(true, clean), Abstract())
      ensures api.reliable ==> clean
    {
      ghost var s := Abstract();
      StoreNew(creator, CreatorEntry(creator));
      var ok := Reconcile(creator);
      clean := ok;
      BootstrapIsStep(h, creator, s, clean, Abstract());
    }
  }
}
