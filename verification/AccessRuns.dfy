/** What the access steps keep over whole runs: no grant outlives its policy, entries do not
    disturb one another, and the user who authenticates is the user who was bound. */
module AccessRuns {
  import opened Text
  import opened Model
  import opened Rbac
  import opened Kube
  import opened Access
  import Arn
  import Resolver

  /* ---------- Orphans ---------- */

  ghost predicate JustifiedBy(h: Hash, e: Entry, existing: set<string>, p: Path, o: Obj) {
    exists b :: b in Derived(h, e, existing) && b.At() == p && Live(b) == o
  }

  ghost predicate Justified(h: Hash, s: State, p: Path)
    requires p in s.objects
  {
    exists k :: k in s.entries && JustifiedBy(h, s.entries[k], s.namespaces, p, s.objects[p])
  }

  /** The eksuvia-owned bindings that no current entry implies: grants that outlived their policy. */
  ghost function Orphans(h: Hash, s: State): set<Path> {
    set p | p in s.objects && s.objects[p].owned && !Justified(h, s, p)
  }

  /** The only orphans a step can make. With successful API calls they are the places of the old
      entry that an overwritten scope (or an overwritten creator entry) no longer covers; deletions
      that failed may leave what they did not delete, and a failed reconcile what it did not replace. */
  ghost function Leak(h: Hash, creator: string, s: State, op: Op, calls: Calls): set<Path> {
    var target := Target(creator, s, op);
    if target.None? || target.value.0 !in s.entries then {}
    else
      var old_ := Derived(h, s.entries[target.value.0], s.namespaces);
      var new_ := Added(h, s, target.value.1);
      if op.DeleteEntry? || op.Disassociate? then (if calls.revoked then {} else Paths(old_))
      else if calls.applied then Paths(old_) - Paths(new_)
      else Paths(old_ - new_)
  }

  lemma ExpandMonotone(patterns: seq<string>, small: set<string>, large: set<string>, n: string)
    requires small <= large && n in ExpandSet(patterns, small)
    ensures n in ExpandSet(patterns, large)
  {
    var p :| p in patterns && n in ExpandOne(p, small);
    assert n in ExpandOne(p, large);
  }

  lemma ExpandWithout(patterns: seq<string>, existing: set<string>, gone: string, n: string)
    requires n != gone && n in ExpandSet(patterns, existing)
    ensures n in ExpandSet(patterns, existing - {gone})
  {
    var p :| p in patterns && n in ExpandOne(p, existing);
    assert n in ExpandOne(p, existing - {gone});
  }

  lemma WantedMonotone(h: Hash, principal: string, username: string, policies: seq<AssociatedPolicy>,
                       small: set<string>, large: set<string>)
    requires small <= large
    ensures Wanted(h, principal, username, policies, small) <= Wanted(h, principal, username, policies, large)
  {
    forall b | b in Wanted(h, principal, username, policies, small)
      ensures b in Wanted(h, principal, username, policies, large)
    {
      var p :| p in policies && b in PolicyBindings(h, principal, username, p, small);
      if p.scope.kind != CLUSTER_SCOPE {
        ExpandMonotone(p.scope.namespaces, small, large, b.ns);
      }
      assert b in PolicyBindings(h, principal, username, p, large);
    }
  }

  lemma DerivedGrows(h: Hash, e: Entry, existing: set<string>, name: string)
    ensures Derived(h, e, existing) <= Derived(h, e, existing + {name})
  {
    WantedMonotone(h, e.principal, e.Subject(), e.policies, Visible(e.policies, existing), Visible(e.policies, existing + {name}));
  }

  lemma DerivedShrinks(h: Hash, e: Entry, existing: set<string>, name: string, b: RBACBinding)
    requires b in Derived(h, e, existing) && b.ns != name
    ensures b in Derived(h, e, existing - {name})
  {
    var vis := Visible(e.policies, existing);
    var p :| p in e.policies && b in PolicyBindings(h, e.principal, e.Subject(), p, vis);
    if p.scope.kind != CLUSTER_SCOPE {
      ExpandWithout(p.scope.namespaces, vis, name, b.ns);
      assert vis - {name} == Visible(e.policies, existing - {name});
    }
    assert b in PolicyBindings(h, e.principal, e.Subject(), p, Visible(e.policies, existing - {name}));
  }

  /** An object after a reconcile is one the step put there or one it left alone. */
  lemma ReconcileSource(h: Hash, s: State, op: Op, calls: Calls, t: State, key: string, after: Option<Entry>, p: Path)
    requires s.ready && Reconciled(h, s, op, calls, t, key, after) && p in t.objects
    ensures var removed, added := Removed(h, s, op, key), Added(h, s, after);
            || (exists b :: b in added && b.At() == p && t.objects[p] == Live(b))
            || (&& p in s.objects && t.objects[p] == s.objects[p]
                && (calls.revoked ==> p !in Paths(removed)) && (calls.applied ==> p !in Paths(added)))
  {
    var middle :| ThroughMiddle(h, s, op, calls, t, key, after, middle);
    var added := Added(h, s, after);
    if p in Paths(added) {
      var b :| b in added && b.At() == p;
    } else {
      assert p in t.objects - Paths(added);
    }
  }

  /** A binding of the old entry that the step neither removed nor justifies again has leaked. */
  lemma LeakedFromOldEntry(h: Hash, creator: string, s: State, op: Op, calls: Calls, b: RBACBinding)
    requires Target(creator, s, op).Some?
    requires var (key, after) := Target(creator, s, op).value;
             && key in s.entries && b in Derived(h, s.entries[key], s.namespaces) && b !in Added(h, s, after)
             && (calls.revoked ==> b.At() !in Paths(Removed(h, s, op, key))) && (calls.applied ==> b.At() !in Paths(Added(h, s, after)))
    ensures b.At() in Leak(h, creator, s, op, calls)
  {
  }

  lemma UnchangedObject(h: Hash, creator: string, s: State, op: Op, calls: Calls, t: State, key: string, after: Option<Entry>, p: Path)
    requires Target(creator, s, op) == Some((key, after)) && t.namespaces == s.namespaces
    requires t.entries == (if after.Some? then s.entries[key := after.value] else s.entries - {key})
    requires p in s.objects && p in t.objects && t.objects[p] == s.objects[p] && Justified(h, s, p)
    requires (calls.revoked ==> p !in Paths(Removed(h, s, op, key))) && (calls.applied ==> p !in Paths(Added(h, s, after)))
    ensures Justified(h, t, p) || p in Leak(h, creator, s, op, calls)
  {
    var k :| k in s.entries && JustifiedBy(h, s.entries[k], s.namespaces, p, s.objects[p]);
    var b :| b in Derived(h, s.entries[k], s.namespaces) && b.At() == p && Live(b) == s.objects[p];
    if k != key {
      JustifiedByEntry(h, t, k, b);
    } else if b in Added(h, s, after) {
      JustifiedByEntry(h, t, key, b);
    } else {
      LeakedFromOldEntry(h, creator, s, op, calls, b);
    }
  }

  lemma ReconciledObject(h: Hash, creator: string, s: State, op: Op, calls: Calls, t: State, key: string, after: Option<Entry>, p: Path)
    requires Target(creator, s, op) == Some((key, after)) && s.ready && Reconciled(h, s, op, calls, t, key, after)
    requires p in t.objects && t.objects[p].owned && p !in Orphans(h, s)
    ensures Justified(h, t, p) || p in Leak(h, creator, s, op, calls)
  {
    ReconcileSource(h, s, op, calls, t, key, after, p);
    if b :| b in Added(h, s, after) && b.At() == p && t.objects[p] == Live(b) {
      JustifiedByEntry(h, t, key, b);
    } else {
      UnchangedObject(h, creator, s, op, calls, t, key, after, p);
    }
  }

  /** Where an owned object can stand after a step that reconciles one entry. */
  lemma ObjectAfterReconcile(h: Hash, creator: string, s: State, op: Op, calls: Calls, t: State, p: Path)
    requires Inv(h, s) && Next(h, creator, s, op, calls, t) && Target(creator, s, op).Some?
    requires p in t.objects && t.objects[p].owned && p !in Orphans(h, s)
    ensures Justified(h, t, p) || p in Leak(h, creator, s, op, calls)
  {
    var (key, after) := Target(creator, s, op).value;
    assert Reconciled(h, s, op, calls, t, key, after);
    if s.ready {
      ReconciledObject(h, creator, s, op, calls, t, key, after, p);
    }
  }

  lemma JustifiedByEntry(h: Hash, s: State, k: string, b: RBACBinding)
    requires k in s.entries && b in Derived(h, s.entries[k], s.namespaces)
    requires b.At() in s.objects && s.objects[b.At()] == Live(b)
    ensures Justified(h, s, b.At())
  {
    assert JustifiedBy(h, s.entries[k], s.namespaces, b.At(), s.objects[b.At()]);
  }

  /** No grant outlives its policy, up to the leak of the step itself. */
  lemma StepOrphans(h: Hash, creator: string, s: State, op: Op, calls: Calls, t: State)
    requires Inv(h, s) && Next(h, creator, s, op, calls, t)
    ensures Orphans(h, t) <= Orphans(h, s) + Leak(h, creator, s, op, calls)
  {
    forall p | p in Orphans(h, t) && p !in Orphans(h, s) ensures p in Leak(h, creator, s, op, calls) {
      if Target(creator, s, op).Some? {
        ObjectAfterReconcile(h, creator, s, op, calls, t, p);
      } else {
        ObjectKept(h, creator, s, op, calls, t, p);
      }
    }
  }

  lemma ObjectKept(h: Hash, creator: string, s: State, op: Op, calls: Calls, t: State, p: Path)
    requires Inv(h, s) && Next(h, creator, s, op, calls, t) && Target(creator, s, op).None?
    requires p in t.objects && t.objects[p].owned && p !in Orphans(h, s)
    ensures Justified(h, t, p)
  {
    assert p in s.objects && s.objects[p] == t.objects[p];
    var k :| k in s.entries && JustifiedBy(h, s.entries[k], s.namespaces, p, s.objects[p]);
    var b :| b in Derived(h, s.entries[k], s.namespaces) && b.At() == p && Live(b) == s.objects[p];
    StillDerived(h, s, op, t, k, b);
    JustifiedByEntry(h, t, k, b);
  }

  lemma StillDerived(h: Hash, s: State, op: Op, t: State, k: string, b: RBACBinding)
    requires k in s.entries && k in t.entries && t.entries[k] == s.entries[k]
    requires b in Derived(h, s.entries[k], s.namespaces)
    requires || t.namespaces == s.namespaces
             || (exists n :: t.namespaces == s.namespaces + {n})
             || (exists n :: n != b.ns && t.namespaces == s.namespaces - {n})
    ensures b in Derived(h, t.entries[k], t.namespaces)
  {
    if n :| t.namespaces == s.namespaces + {n} {
      DerivedGrows(h, s.entries[k], s.namespaces, n);
    } else if n :| n != b.ns && t.namespaces == s.namespaces - {n} {
      DerivedShrinks(h, s.entries[k], s.namespaces, n, b);
    }
  }

  /* ---------- Runs ---------- */

  ghost predicate IsRun(h: Hash, creator: string, ss: seq<State>, ops: seq<(Op, Calls)>) {
    && |ss| == |ops| + 1
    && forall i :: 0 <= i < |ops| ==> Next(h, creator, ss[i], ops[i].0, ops[i].1, ss[i + 1])
  }

  const EMPTY := State(map[], map[], {}, false)

  lemma EmptyInv(h: Hash, creator: string)
    ensures Inv(h, EMPTY) && KeysFit(creator, EMPTY) && Orphans(h, EMPTY) == {}
  {
  }

  ghost function RunLeak(h: Hash, creator: string, ss: seq<State>, ops: seq<(Op, Calls)>): set<Path>
    requires |ss| == |ops| + 1
  {
    if |ops| == 0 then {}
    else
      var n := |ops| - 1;
      RunLeak(h, creator, ss[..n + 1], ops[..n]) + Leak(h, creator, ss[n], ops[n].0, ops[n].1)
  }

  /** In every run from the empty cluster the invariant holds, and every owned binding that no
      current entry implies was leaked by one of the run's own steps. */
  lemma {:induction false} RunSafe(h: Hash, creator: string, ss: seq<State>, ops: seq<(Op, Calls)>)
    requires IsRun(h, creator, ss, ops) && ss[0] == EMPTY
    ensures Inv(h, ss[|ops|]) && KeysFit(creator, ss[|ops|])
    ensures Orphans(h, ss[|ops|]) <= RunLeak(h, creator, ss, ops)
    decreases |ops|
  {
    EmptyInv(h, creator);
    if |ops| > 0 {
      var n := |ops| - 1;
      RunSafe(h, creator, ss[..n + 1], ops[..n]);
      StepKeepsInv(h, creator, ss[n], ops[n].0, ops[n].1, ss[n + 1]);
      StepKeepsKeys(h, creator, ss[n], ops[n].0, ops[n].1, ss[n + 1]);
      StepOrphans(h, creator, ss[n], ops[n].0, ops[n].1, ss[n + 1]);
    }
  }

  /** No scope was narrowed: what each old association grants, the new one for its policy grants too. */
  ghost predicate Covers(before: seq<AssociatedPolicy>, after: seq<AssociatedPolicy>, existing: set<string>) {
    forall p :: p in before ==> CoveredBy(p, before, after, existing)
  }

  ghost predicate CoveredBy(p: AssociatedPolicy, before: seq<AssociatedPolicy>, after: seq<AssociatedPolicy>, existing: set<string>) {
    exists q :: q in after && q.arn == p.arn
      && Granted(p.scope, Visible(before, existing)) <= Granted(q.scope, Visible(after, existing))
  }

  /** A step that can be checked beforehand not to leak: the calls that delete bindings succeed, and
      overwritten associations are not narrowed. Applying bindings may fail, unless it has to give
      them to another user. */
  ghost predicate Careful(creator: string, s: State, op: Op, calls: Calls) {
    Target(creator, s, op).Some? ==>
      var (key, after) := Target(creator, s, op).value;
      if op.DeleteEntry? || op.Disassociate? then calls.revoked
      else
        key in s.entries && after.Some? ==>
          && after.value.principal == s.entries[key].principal
          && (calls.applied || after.value.Subject() == s.entries[key].Subject())
          && Covers(s.entries[key].policies, after.value.policies, s.namespaces)
  }

  /** Associating a policy that the entry does not have yet narrows nothing. */
  lemma NewPolicyCovers(policies: seq<AssociatedPolicy>, p: AssociatedPolicy, existing: set<string>)
    requires UniqueArns(policies) && forall q :: q in policies ==> q.arn != p.arn
    ensures Covers(policies, Upserted(policies, p), existing)
  {
    UpsertedAt(policies, p);
    var after := Upserted(policies, p);
    forall q | q in policies ensures CoveredBy(q, policies, after, existing) {
      assert q in after;
      forall n | n in Granted(q.scope, Visible(policies, existing)) ensures n in Granted(q.scope, Visible(after, existing)) {
        if q.scope.kind != CLUSTER_SCOPE {
          ExpandMonotone(q.scope.namespaces, Visible(policies, existing), Visible(after, existing), n);
        }
      }
    }
  }

  lemma CarefulNoLeak(h: Hash, creator: string, s: State, op: Op, calls: Calls)
    requires Careful(creator, s, op, calls)
    ensures Leak(h, creator, s, op, calls) == {}
  {
    var target := Target(creator, s, op);
    if target.Some? && target.value.0 in s.entries && target.value.1.Some? && !op.Disassociate? && !op.DeleteEntry? {
      CoversPlaces(h, s.entries[target.value.0], target.value.1.value, s.namespaces);
    }
  }

  lemma CoversPlaces(h: Hash, e: Entry, e': Entry, existing: set<string>)
    requires e.principal == e'.principal && Covers(e.policies, e'.policies, existing)
    ensures Paths(Derived(h, e, existing)) <= Paths(Derived(h, e', existing))
    ensures e.Subject() == e'.Subject() ==> Derived(h, e, existing) <= Derived(h, e', existing)
  {
    forall b | b in Derived(h, e, existing)
      ensures b.At() in Paths(Derived(h, e', existing)) && (e.Subject() == e'.Subject() ==> b in Derived(h, e', existing))
    {
      var p :| p in e.policies && b in PolicyBindings(h, e.principal, e.Subject(), p, Visible(e.policies, existing));
      assert CoveredBy(p, e.policies, e'.policies, existing);
      var q :| q in e'.policies && q.arn == p.arn
        && Granted(p.scope, Visible(e.policies, existing)) <= Granted(q.scope, Visible(e'.policies, existing));
      var c := MakeBinding(h, e'.principal, e'.Subject(), q.arn, b.ns);
      assert c in PolicyBindings(h, e'.principal, e'.Subject(), q, Visible(e'.policies, existing));
      assert c in Derived(h, e', existing) && c.At() == b.At();
    }
  }

  ghost predicate AllCareful(creator: string, ss: seq<State>, ops: seq<(Op, Calls)>)
    requires |ss| == |ops| + 1
  {
    forall i :: 0 <= i < |ops| ==> CarefulNth(creator, ss, ops, i)
  }

  ghost predicate CarefulNth(creator: string, ss: seq<State>, ops: seq<(Op, Calls)>, i: int)
    requires |ss| == |ops| + 1 && 0 <= i < |ops|
  {
    Careful(creator, ss[i], ops[i].0, ops[i].1)
  }

  lemma PrefixCareful(creator: string, ss: seq<State>, ops: seq<(Op, Calls)>)
    requires |ss| == |ops| + 1 && |ops| > 0 && AllCareful(creator, ss, ops)
    ensures AllCareful(creator, ss[..|ops|], ops[..|ops| - 1])
  {
    var n := |ops| - 1;
    var front, before := ss[..n + 1], ops[..n];
    forall i | 0 <= i < n ensures CarefulNth(creator, front, before, i) {
      assert CarefulNth(creator, ss, ops, i);
    }
  }

  /** No grant outlives its policy in any run of careful steps, failed reconciles included. */
  lemma {:induction false} CarefulRunsLeaveNoOrphans(h: Hash, creator: string, ss: seq<State>, ops: seq<(Op, Calls)>)
    requires IsRun(h, creator, ss, ops) && ss[0] == EMPTY && AllCareful(creator, ss, ops)
    ensures Orphans(h, ss[|ops|]) == {}
    decreases |ops|
  {
    EmptyInv(h, creator);
    if |ops| > 0 {
      var n := |ops| - 1;
      PrefixCareful(creator, ss, ops);
      CarefulRunsLeaveNoOrphans(h, creator, ss[..n + 1], ops[..n]);
      RunSafe(h, creator, ss[..n + 1], ops[..n]);
      assert CarefulNth(creator, ss, ops, n);
      CarefulStep(h, creator, ss[n], ops[n].0, ops[n].1, ss[n + 1]);
    }
  }

  lemma CarefulStep(h: Hash, creator: string, s: State, op: Op, calls: Calls, t: State)
    requires Inv(h, s) && Orphans(h, s) == {} && Careful(creator, s, op, calls) && Next(h, creator, s, op, calls, t)
    ensures Orphans(h, t) == {}
  {
    CarefulNoLeak(h, creator, s, op, calls);
    StepOrphans(h, creator, s, op, calls, t);
  }

  /* ---------- One entry's places ---------- */

  /** The places a principal's bindings can have. */
  ghost predicate PlaceOf(h: Hash, principal: string, p: Path) {
    exists policy :: IsKnownAccessPolicy(policy) && p.name == BindingName(h, principal, policy, p.ns)
  }

  ghost function LiveFor(h: Hash, s: State, principal: string): set<Path> {
    set p | p in s.objects && PlaceOf(h, principal, p)
  }

  lemma DerivedPlaces(h: Hash, e: Entry, existing: set<string>, p: Path)
    requires p in Paths(Derived(h, e, existing))
    ensures PlaceOf(h, e.principal, p)
  {
    var b :| b in Derived(h, e, existing) && b.At() == p;
    DerivedFacts(h, e, existing, b);
  }

  lemma PlacesApart(h: Hash, principal: string, principal': string, p: Path)
    requires Injective(h) && PlaceOf(h, principal, p) && PlaceOf(h, principal', p)
    ensures principal == principal'
  {
    var x :| IsKnownAccessPolicy(x) && p.name == BindingName(h, principal, x, p.ns);
    var y :| IsKnownAccessPolicy(y) && p.name == BindingName(h, principal', y, p.ns);
    NameInjective(h, principal, x, principal', y, p.ns);
  }

  /** The configured creator is either its own canonical form or not a principal at all. */
  ghost predicate CreatorCanonical(creator: string) {
    Arn.Canonicalize(creator).Ok? ==> Arn.Canonicalize(creator).value == creator
  }

  /** Then distinct entries have distinct principals, because the key is a function of it. */
  lemma PrincipalsDistinct(h: Hash, creator: string, s: State, j: string, k: string)
    requires KeysFit(creator, s) && CreatorCanonical(creator)
    requires j in s.entries && k in s.entries && s.entries[j].principal == s.entries[k].principal
    ensures j == k
  {
  }

  /** A step changes nothing outside the places of the one principal it reconciles: objects of
      other principals and objects that are not generated are untouched, even if API calls fail. */
  lemma StepFrame(h: Hash, creator: string, s: State, op: Op, calls: Calls, t: State, p: Path)
    requires Next(h, creator, s, op, calls, t) && Target(creator, s, op).Some?
    requires var (key, after) := Target(creator, s, op).value;
             && (key in s.entries ==> !PlaceOf(h, s.entries[key].principal, p))
             && (after.Some? ==> !PlaceOf(h, after.value.principal, p))
    ensures p in s.objects <==> p in t.objects
    ensures p in s.objects ==> s.objects[p] == t.objects[p]
  {
    var (key, after) := Target(creator, s, op).value;
    if s.ready {
      var middle :| ThroughMiddle(h, s, op, calls, t, key, after, middle);
      var removed, added := Removed(h, s, op, key), Added(h, s, after);
      assert p !in Paths(removed) by {
        if p in Paths(removed) { DerivedPlaces(h, s.entries[key], s.namespaces, p); }
      }
      assert p !in Paths(added) by {
        if p in Paths(added) { DerivedPlaces(h, after.value, s.namespaces, p); }
      }
      assert p in s.objects <==> p in s.objects - Paths(removed);
      assert p in middle <==> p in middle - Paths(removed);
      assert p in middle <==> p in middle - Paths(added);
      assert p in t.objects <==> p in t.objects - Paths(added);
    }
  }

  /** In particular one entry's step never touches another entry's bindings. */
  lemma EntriesDoNotInterfere(h: Hash, creator: string, s: State, op: Op, calls: Calls, t: State, other: string, p: Path)
    requires Injective(h) && CreatorCanonical(creator) && KeysFit(creator, s)
    requires Inv(h, s) && Next(h, creator, s, op, calls, t) && Target(creator, s, op).Some?
    requires other in s.entries && other != Target(creator, s, op).value.0
    requires p in Paths(Derived(h, s.entries[other], s.namespaces))
    ensures other in t.entries && t.entries[other] == s.entries[other]
    ensures p in s.objects <==> p in t.objects
    ensures p in s.objects ==> s.objects[p] == t.objects[p]
  {
    var (key, after) := Target(creator, s, op).value;
    DerivedPlaces(h, s.entries[other], s.namespaces, p);
    var q := s.entries[other].principal;
    if key in s.entries && PlaceOf(h, s.entries[key].principal, p) {
      PlacesApart(h, s.entries[key].principal, q, p);
      PrincipalsDistinct(h, creator, s, key, other);
    } else if after.Some? && PlaceOf(h, after.value.principal, p) {
      PlacesApart(h, after.value.principal, q, p);
      TargetKeyFits(creator, s, op);
    } else {
      StepFrame(h, creator, s, op, calls, t, p);
    }
  }

  /* ---------- Exactness ---------- */

  /** After a successful associate or disassociate the principal's bindings are exactly those of the
      new entry, provided that before it they were all among those the step removes or re-applies:
      for an associate, that no scope was narrowed. */
  lemma StepExact(h: Hash, creator: string, s: State, op: Op, t: State)
    requires Inv(h, s) && Next(h, creator, s, op, CLEAN, t) && s.ready
    requires op.Associate? || op.Disassociate?
    requires Target(creator, s, op).Some?
    requires var (key, after) := Target(creator, s, op).value;
             LiveFor(h, s, after.value.principal) <= Paths(Removed(h, s, op, key)) + Paths(Added(h, s, after))
    ensures var (key, after) := Target(creator, s, op).value;
            && t.entries == s.entries[key := after.value]
            && LiveFor(h, t, after.value.principal) == Paths(Derived(h, after.value, t.namespaces))
            && forall b :: b in Derived(h, after.value, t.namespaces) ==> b.At() in t.objects && t.objects[b.At()] == Live(b)
  {
    var (key, after) := Target(creator, s, op).value;
    var e := after.value;
    var middle :| ThroughMiddle(h, s, op, CLEAN, t, key, after, middle);
    var added := Added(h, s, after);
    forall p | p in LiveFor(h, t, e.principal) ensures p in Paths(added) {
      ReconcileSource(h, s, op, CLEAN, t, key, after, p);
      assert p in s.objects ==> p in LiveFor(h, s, e.principal);
    }
    forall p | p in Paths(added) ensures p in LiveFor(h, t, e.principal) {
      DerivedPlaces(h, e, s.namespaces, p);
    }
  }

  /** No object that the code did not generate stands at a generated name. */
  ghost predicate NoSquatters(h: Hash, s: State) {
    forall p, principal :: p in s.objects && PlaceOf(h, principal, p) ==> s.objects[p].owned
  }

  /** The cluster comes up without squatters, and no one adds any. */
  lemma StepKeepsNoSquatters(h: Hash, creator: string, s: State, op: Op, calls: Calls, t: State)
    requires NoSquatters(h, s) && Next(h, creator, s, op, calls, t) && (op.BecomeReady? ==> NoSquatters(h, t))
    ensures NoSquatters(h, t)
  {
    var target := Target(creator, s, op);
    forall p, principal | p in t.objects && PlaceOf(h, principal, p) ensures t.objects[p].owned {
      if target.Some? && s.ready {
        ReconcileSource(h, s, op, calls, t, target.value.0, target.value.1, p);
      } else if !op.BecomeReady? {
        assert p in s.objects && t.objects[p] == s.objects[p];
      }
    }
  }

  /** Without orphans and squatters, whatever stands at a name of an entry's principal is one of the
      entry's bindings. */
  lemma LiveIsDerived(h: Hash, creator: string, s: State, key: string)
    requires Injective(h) && CreatorCanonical(creator) && KeysFit(creator, s)
    requires NoSquatters(h, s) && Orphans(h, s) == {} && key in s.entries
    ensures LiveFor(h, s, s.entries[key].principal) <= Paths(Derived(h, s.entries[key], s.namespaces))
  {
    forall p | p in LiveFor(h, s, s.entries[key].principal) ensures p in Paths(Derived(h, s.entries[key], s.namespaces)) {
      assert s.objects[p].owned && p !in Orphans(h, s);
      var k :| k in s.entries && JustifiedBy(h, s.entries[k], s.namespaces, p, s.objects[p]);
      DerivedPlaces(h, s.entries[k], s.namespaces, p);
      PlacesApart(h, s.entries[k].principal, s.entries[key].principal, p);
      PrincipalsDistinct(h, creator, s, k, key);
    }
  }

  /** A run of careful steps in a cluster that comes up without squatters. */
  ghost predicate CarefulRun(h: Hash, creator: string, ss: seq<State>, ops: seq<(Op, Calls)>) {
    && IsRun(h, creator, ss, ops) && ss[0] == EMPTY
    && forall i :: 0 <= i < |ops| ==> CarefulAt(h, creator, ss[i], ops[i].0, ops[i].1, ss[i + 1])
  }

  ghost predicate CarefulAt(h: Hash, creator: string, s: State, op: Op, calls: Calls, t: State) {
    Careful(creator, s, op, calls) && (op.BecomeReady? ==> NoSquatters(h, t))
  }

  lemma {:induction false} CarefulRunHasNoSquatters(h: Hash, creator: string, ss: seq<State>, ops: seq<(Op, Calls)>)
    requires CarefulRun(h, creator, ss, ops)
    ensures NoSquatters(h, ss[|ops|])
    decreases |ops|
  {
    if |ops| > 0 {
      var n := |ops| - 1;
      CarefulRunHasNoSquatters(h, creator, ss[..n + 1], ops[..n]);
      assert CarefulAt(h, creator, ss[n], ops[n].0, ops[n].1, ss[n + 1]);
      StepKeepsNoSquatters(h, creator, ss[n], ops[n].0, ops[n].1, ss[n + 1]);
    }
  }

  /** The bindings of the entry's principal are those derived from the entry, contents included, that
      one entry has changed, and so has no object that is not at one of the principal's names. */
  ghost predicate Exact(h: Hash, s: State, t: State, key: string, e: Entry) {
    && t.entries == s.entries[key := e] && t.namespaces == s.namespaces
    && LiveFor(h, t, e.principal) == Paths(Derived(h, e, t.namespaces))
    && (forall b :: b in Derived(h, e, t.namespaces) ==> b.At() in t.objects && t.objects[b.At()] == Live(b))
    && (forall p :: !PlaceOf(h, e.principal, p) ==> SameAt(s, t, p))
  }

  lemma CarefulStepExact(h: Hash, creator: string, s: State, op: Op, t: State)
    requires Injective(h) && CreatorCanonical(creator) && Inv(h, s) && KeysFit(creator, s)
    requires NoSquatters(h, s) && Orphans(h, s) == {}
    requires s.ready && (op.Associate? || op.Disassociate?) && Target(creator, s, op).Some?
    requires Careful(creator, s, op, CLEAN) && Next(h, creator, s, op, CLEAN, t)
    ensures var (key, after) := Target(creator, s, op).value; Exact(h, s, t, key, after.value)
  {
    var (key, after) := Target(creator, s, op).value;
    LiveIsDerived(h, creator, s, key);
    if op.Associate? {
      CoversPlaces(h, s.entries[key], after.value, s.namespaces);
    }
    StepExact(h, creator, s, op, t);
    forall p | !PlaceOf(h, after.value.principal, p) ensures SameAt(s, t, p) {
      StepFrame(h, creator, s, op, CLEAN, t, p);
    }
  }

  /** Exactness: every careful associate or disassociate after every careful run is exact. */
  lemma CarefulRunExact(h: Hash, creator: string, ss: seq<State>, ops: seq<(Op, Calls)>, op: Op, t: State)
    requires Injective(h) && CreatorCanonical(creator) && CarefulRun(h, creator, ss, ops)
    requires ss[|ops|].ready && (op.Associate? || op.Disassociate?) && Target(creator, ss[|ops|], op).Some?
    requires Careful(creator, ss[|ops|], op, CLEAN) && Next(h, creator, ss[|ops|], op, CLEAN, t)
    ensures var (key, after) := Target(creator, ss[|ops|], op).value; Exact(h, ss[|ops|], t, key, after.value)
  {
    CarefulRunIsClean(h, creator, ss, ops);
    CarefulStepExact(h, creator, ss[|ops|], op, t);
  }

  lemma CarefulRunIsClean(h: Hash, creator: string, ss: seq<State>, ops: seq<(Op, Calls)>)
    requires CarefulRun(h, creator, ss, ops)
    ensures Inv(h, ss[|ops|]) && KeysFit(creator, ss[|ops|]) && NoSquatters(h, ss[|ops|]) && Orphans(h, ss[|ops|]) == {}
  {
    RunSafe(h, creator, ss, ops);
    CarefulRunHasNoSquatters(h, creator, ss, ops);
    forall i | 0 <= i < |ops| ensures CarefulNth(creator, ss, ops, i) {
      assert CarefulAt(h, creator, ss[i], ops[i].0, ops[i].1, ss[i + 1]);
    }
    CarefulRunsLeaveNoOrphans(h, creator, ss, ops);
  }

  ghost predicate SameAt(s: State, t: State, p: Path) {
    (p in s.objects <==> p in t.objects) && (p in s.objects ==> s.objects[p] == t.objects[p])
  }

  /** Re-associating a policy in an orphan-free cluster orphans exactly the live places of the old
      entry that the new one does not cover. */
  lemma AssociateOrphansExactly(h: Hash, creator: string, s: State, op: Op, t: State)
    requires Injective(h) && CreatorCanonical(creator) && KeysFit(creator, s)
    requires Inv(h, s) && Next(h, creator, s, op, CLEAN, t) && s.ready
    requires op.Associate? && Target(creator, s, op).Some?
    requires Orphans(h, s) == {}
    ensures var (key, after) := Target(creator, s, op).value;
            Orphans(h, t) == LivePlaces(h, s, key) - Paths(Derived(h, after.value, s.namespaces))
  {
    var (key, after) := Target(creator, s, op).value;
    StepOrphans(h, creator, s, op, CLEAN, t);
    StepKeepsKeys(h, creator, s, op, CLEAN, t);
    forall p | p in Orphans(h, t) ensures p in LivePlaces(h, s, key) - Paths(Derived(h, after.value, s.namespaces)) {
      ReconcileSource(h, s, op, CLEAN, t, key, after, p);
    }
    forall p | p in LivePlaces(h, s, key) - Paths(Derived(h, after.value, s.namespaces)) ensures p in Orphans(h, t) {
      UntouchedByAssociate(h, creator, s, op, t, p);
      DerivedPlaces(h, s.entries[key], s.namespaces, p);
      forall k | k in t.entries ensures !JustifiedBy(h, t.entries[k], t.namespaces, p, t.objects[p]) {
        NotJustifiedByOthers(h, creator, t, key, k, p);
      }
    }
  }

  /** The generated objects that stand at an entry's places. */
  ghost function LivePlaces(h: Hash, s: State, key: string): set<Path>
    requires key in s.entries
  {
    set p | p in Paths(Derived(h, s.entries[key], s.namespaces)) && p in s.objects && s.objects[p].owned
  }

  lemma UntouchedByAssociate(h: Hash, creator: string, s: State, op: Op, t: State, p: Path)
    requires Next(h, creator, s, op, CLEAN, t) && s.ready && op.Associate? && Target(creator, s, op).Some?
    requires p in s.objects && p !in Paths(Added(h, s, Target(creator, s, op).value.1))
    ensures p in t.objects && t.objects[p] == s.objects[p]
  {
    var (key, after) := Target(creator, s, op).value;
    var middle :| ThroughMiddle(h, s, op, CLEAN, t, key, after, middle);
    assert Paths({}) == {};
    assert p in s.objects - Paths({});
    assert p in middle - Paths(Added(h, s, after));
    assert p in t.objects - Paths(Added(h, s, after));
  }

  lemma NotJustifiedByOthers(h: Hash, creator: string, t: State, key: string, k: string, p: Path)
    requires Injective(h) && CreatorCanonical(creator) && KeysFit(creator, t)
    requires key in t.entries && k in t.entries && p in t.objects
    requires PlaceOf(h, t.entries[key].principal, p) && p !in Paths(Derived(h, t.entries[key], t.namespaces))
    ensures !JustifiedBy(h, t.entries[k], t.namespaces, p, t.objects[p])
  {
    if JustifiedBy(h, t.entries[k], t.namespaces, p, t.objects[p]) {
      DerivedPlaces(h, t.entries[k], t.namespaces, p);
      PlacesApart(h, t.entries[key].principal, t.entries[k].principal, p);
      PrincipalsDistinct(h, creator, t, key, k);
    }
  }

  /* ---------- When principals can coincide ---------- */

  ghost predicate Reachable(h: Hash, creator: string, s: State) {
    exists ss, ops :: IsRun(h, creator, ss, ops) && ss[0] == EMPTY && ss[|ops|] == s
  }

  ghost predicate SharesPrincipal(s: State) {
    exists j, k :: j in s.entries && k in s.entries && j != k && s.entries[j].principal == s.entries[k].principal
  }

  /** Bootstrapping stores the creator's entry under the configured ARN as it is, while requests
      store theirs under the canonical ARN. Two entries can come to share a principal, and with it
      their binding names, exactly when the configured creator is not in canonical form. */
  lemma SharedPrincipalIff(h: Hash, creator: string)
    requires creator != ""
    ensures (exists s :: Reachable(h, creator, s) && SharesPrincipal(s)) <==> !CreatorCanonical(creator)
  {
    if CreatorCanonical(creator) {
      forall s | Reachable(h, creator, s) ensures !SharesPrincipal(s) {
        var ss, ops :| IsRun(h, creator, ss, ops) && ss[0] == EMPTY && ss[|ops|] == s;
        RunSafe(h, creator, ss, ops);
        forall j, k | j in s.entries && k in s.entries && s.entries[j].principal == s.entries[k].principal ensures j == k {
          PrincipalsDistinct(h, creator, s, j, k);
        }
      }
    } else {
      var s := SharingRun(h, creator);
    }
  }

  lemma Step(h: Hash, creator: string, s: State, op: Op, calls: Calls, t: State)
    requires Reachable(h, creator, s) && Next(h, creator, s, op, calls, t)
    ensures Reachable(h, creator, t)
  {
    var ss, ops :| IsRun(h, creator, ss, ops) && ss[0] == EMPTY && ss[|ops|] == s;
    assert IsRun(h, creator, ss + [t], ops + [(op, calls)]);
  }

  /** The creator's cluster when it has just come up with one namespace. */
  function Started(h: Hash, creator: string, namespaces: set<string>): State {
    var e := CreatorEntry(creator);
    var grant := MakeBinding(h, creator, creator, CLUSTER_ADMIN_POLICY, "");
    State(map[creator := e], map[grant.At() := Live(grant)], namespaces, true)
  }

  lemma StartedReachable(h: Hash, creator: string, name: string)
    requires creator != "" && name != ""
    ensures Reachable(h, creator, Started(h, creator, {name}))
  {
    assert IsRun(h, creator, [EMPTY], []);
    var s1, s2 := EMPTY.(ready := true), EMPTY.(ready := true, namespaces := {name});
    Step(h, creator, EMPTY, BecomeReady, CLEAN, s1);
    Step(h, creator, s1, AddNamespace(name), CLEAN, s2);
    CreatorBindings(h, creator, {name});
    Grants(h, creator, s2, Bootstrap, creator, CreatorEntry(creator), Started(h, creator, {name}));
    Step(h, creator, s2, Bootstrap, CLEAN, Started(h, creator, {name}));
  }

  lemma CreatorBindings(h: Hash, creator: string, existing: set<string>)
    requires creator != ""
    ensures Derived(h, CreatorEntry(creator), existing) == {MakeBinding(h, creator, creator, CLUSTER_ADMIN_POLICY, "")}
  {
    OnePolicy(h, CreatorEntry(creator), existing);
  }

  /** The bindings of an entry with one association. */
  lemma OnePolicy(h: Hash, e: Entry, existing: set<string>)
    requires |e.policies| == 1 && IsKnownAccessPolicy(e.policies[0].arn)
    ensures Derived(h, e, existing)
         == Made(h, e.principal, e.Subject(), e.policies[0].arn, Granted(e.policies[0].scope, Visible(e.policies, existing)))
  {
    var p, visible := e.policies[0], Visible(e.policies, existing);
    assert forall q :: q in e.policies <==> q == p;
    assert Derived(h, e, existing) == PolicyBindings(h, e.principal, e.Subject(), p, visible);
  }

  /** A step that only grants, and whose grants are all made, is a clean one. */
  lemma Grants(h: Hash, creator: string, s: State, op: Op, key: string, e: Entry, t: State)
    requires s.ready && (op.Associate? || op.Bootstrap?) && Target(creator, s, op) == Some((key, Some(e)))
    requires t == s.(entries := s.entries[key := e], objects := t.objects)
    requires Applied(s.objects, Derived(h, e, s.namespaces), t.objects)
    requires forall p :: p in t.objects ==> Placeable(p, t.namespaces)
    ensures Next(h, creator, s, op, CLEAN, t)
  {
    assert Paths({}) == {} && s.objects - {} == s.objects;
    assert ThroughMiddle(h, s, op, CLEAN, t, key, Some(e), s.objects);
  }

  lemma SharingRun(h: Hash, creator: string) returns (s: State)
    requires creator != "" && !CreatorCanonical(creator)
    ensures Reachable(h, creator, s) && SharesPrincipal(s)
  {
    var start := Started(h, creator, {"x"});
    StartedReachable(h, creator, "x");
    var key := Arn.Canonicalize(creator).value;
    s := start.(entries := start.entries[key := NewEntry(creator, "", [])]);
    Step(h, creator, start, CreateEntry(creator, "", []), CLEAN, s);
    assert s.entries[creator].principal == s.entries[key].principal;
  }

  function In(pattern: string): AccessScope {
    AccessScope(NAMESPACE_SCOPE, [pattern])
  }

  /** The creator's entry, narrowed to the namespaces of one pattern. */
  function Narrowed(creator: string, pattern: string): Entry {
    CreatorEntry(creator).(policies := [AssociatedPolicy(CLUSTER_ADMIN_POLICY, In(pattern))])
  }

  function Narrow(creator: string, pattern: string): Op {
    Associate(creator, CLUSTER_ADMIN_POLICY, Some(In(pattern)))
  }

  lemma NarrowTarget(h: Hash, creator: string, pattern: string)
    ensures Target(creator, Started(h, creator, {"x"}), Narrow(creator, pattern)) == Some((creator, Some(Narrowed(creator, pattern))))
  {
    var s := Started(h, creator, {"x"});
    assert s.entries.Keys == {creator};
    assert LookupKey(s.entries.Keys, creator) == Some(creator);
    assert IsKnownAccessPolicy(CLUSTER_ADMIN_POLICY) && ScopeOf(Some(In(pattern))).namespaces != [];
    assert s.entries[creator].policies == [AssociatedPolicy(CLUSTER_ADMIN_POLICY, AccessScope(CLUSTER_SCOPE, []))];
    assert Upserted(s.entries[creator].policies, AssociatedPolicy(CLUSTER_ADMIN_POLICY, In(pattern))) == Narrowed(creator, pattern).policies;
  }

  lemma OnlyInX(h: Hash, creator: string, pattern: string)
    requires creator != "" && pattern in {"x", "x*"}
    ensures Derived(h, Narrowed(creator, pattern), {"x"}) == {MakeBinding(h, creator, creator, CLUSTER_ADMIN_POLICY, "x")}
  {
    OnePolicy(h, Narrowed(creator, pattern), {"x"});
    assert TrimStar("x*") == "x";
    assert ExpandOne(pattern, {"x"}) == {"x"};
    assert ExpandSet([pattern], {"x"}) == {"x"};
  }

  function GrantIn(h: Hash, creator: string, ns: string): RBACBinding {
    MakeBinding(h, creator, creator, CLUSTER_ADMIN_POLICY, ns)
  }

  /** Narrowing does leave orphans: the creator's cluster-wide grant outlives the re-association of
      its policy with one namespace. */
  lemma NarrowingRun(h: Hash, creator: string, pattern: string) returns (t: State)
    requires creator != "" && pattern in {"x", "x*"}
    ensures Reachable(h, creator, t) && t.ready && t.namespaces == {"x"} && t.entries == map[creator := Narrowed(creator, pattern)]
    ensures t.objects == map[GrantIn(h, creator, "").At() := Live(GrantIn(h, creator, "")),
                             GrantIn(h, creator, "x").At() := Live(GrantIn(h, creator, "x"))]
    ensures Orphans(h, t) == {GrantIn(h, creator, "").At()}
  {
    var s, e := Started(h, creator, {"x"}), Narrowed(creator, pattern);
    StartedReachable(h, creator, "x");
    NarrowTarget(h, creator, pattern);
    OnlyInX(h, creator, pattern);
    var grant := GrantIn(h, creator, "x");
    t := s.(entries := map[creator := e], objects := s.objects[grant.At() := Live(grant)]);
    OneMore(s.objects, grant);
    assert s.entries[creator := e] == t.entries;
    Grants(h, creator, s, Narrow(creator, pattern), creator, e, t);
    Step(h, creator, s, Narrow(creator, pattern), CLEAN, t);
    NotFromOneEntry(h, t, creator, GrantIn(h, creator, "").At());
    JustifiedByEntry(h, t, creator, grant);
  }

  /** And so does a failure to list namespaces: deleting the entry deletes what can be derived without
      the list, which is nothing, and a live grant of the deleted entry is left. */
  lemma IgnoredListingRun(h: Hash, creator: string) returns (s: State, t: State)
    requires creator != ""
    ensures Reachable(h, creator, s) && s.entries == map[creator := Narrowed(creator, "x*")]
    ensures Next(h, creator, s, DeleteEntry(creator), Calls(false, true), t) && t.entries == map[]
    ensures t.objects == s.objects - Paths(Unlisted(h, s.entries[creator]))
    ensures GrantIn(h, creator, "x").At() in Orphans(h, t) - Orphans(h, s)
  {
    s := NarrowingRun(h, creator, "x*");
    var e := Narrowed(creator, "x*");
    OnlyInX(h, creator, "x*");
    NothingUnlisted(h, creator);
    assert s.entries.Keys == {creator} && Paths({}) == {} && s.objects - {} == s.objects;
    t := s.(entries := map[]);
    assert s.entries - {creator} == t.entries;
    AllKept(s.objects, Derived(h, e, {"x"}));
    assert ThroughMiddle(h, s, DeleteEntry(creator), Calls(false, true), t, creator, None, s.objects);
    NotFromOneEntry(h, t, creator, GrantIn(h, creator, "x").At());
  }

  lemma NothingUnlisted(h: Hash, creator: string)
    ensures Unlisted(h, Narrowed(creator, "x*")) == {}
  {
    assert '*' in "x*";
    assert ExpandOne("x*", {}) == {};
    assert ExpandSet(["x*"], {}) == {};
  }

  lemma AllKept(objects: map<Path, Obj>, bs: set<RBACBinding>)
    ensures PartlyRemoved(objects, bs, objects) && PartlyApplied(objects, {}, objects)
  {
  }

  lemma OneMore(before: map<Path, Obj>, b: RBACBinding)
    ensures Applied(before, {b}, before[b.At() := Live(b)]) && Paths({b}) == {b.At()}
  {
    assert Paths({b}) == {b.At()};
  }

  /** With one entry, a generated object that is not at one of its places is an orphan. */
  lemma NotFromOneEntry(h: Hash, t: State, key: string, p: Path)
    requires t.entries.Keys <= {key} && p in t.objects && t.objects[p].owned
    requires key in t.entries ==> p !in Paths(Derived(h, t.entries[key], t.namespaces))
    ensures p in Orphans(h, t)
  {
  }

  /* ---------- Authentication agrees with authorisation ---------- */

  /** After a successful associate, the username the webhook resolves for the caller whose canonical
      ARN is the entry's key is the subject of a live binding to the policy's role in every granted
      scope, provided that the entry's username contains no template variable. */
  lemma AuthenticatedUserIsBound(h: Hash, creator: string, s: State, op: Op, t: State,
                                 r: Resolver.Resolver, aws: Resolver.AwsIdentity, out: Option<Resolver.KubeIdentity>, ns: string)
    requires Inv(h, s) && Next(h, creator, s, op, CLEAN, t) && s.ready
    requires op.Associate? && Target(creator, s, op).Some?
    requires r.entries == t.entries && r.EntriesEnabled() && Resolver.Gives(r, aws, out)
    requires aws.canonical == Target(creator, s, op).value.0
    requires Resolver.TemplateFree(t.entries[aws.canonical].Subject())
    requires ns in Granted(ScopeOf(op.scope), Visible(t.entries[aws.canonical].policies, t.namespaces))
    ensures out.Some? && out.value.source == Resolver.FromAccessEntry
    ensures var p := Path(ns, BindingName(h, t.entries[aws.canonical].principal, op.policy, ns));
            p in t.objects && t.objects[p] == Obj(RoleOf(op.policy).value, out.value.username, true)
  {
    var (key, after) := Target(creator, s, op).value;
    var e := after.value;
    var middle :| ThroughMiddle(h, s, op, CLEAN, t, key, after, middle);
    var p := AssociatedPolicy(op.policy, ScopeOf(op.scope));
    UpsertedAt(s.entries[key].policies, p);
    assert p in e.policies;
    var b := MakeBinding(h, e.principal, e.Subject(), op.policy, ns);
    assert b in PolicyBindings(h, e.principal, e.Subject(), p, Visible(e.policies, s.namespaces));
    assert b in Derived(h, e, s.namespaces);
    Resolver.ExpandLiteral(e.Subject(), aws);
    assert EqualFold(key, aws.canonical);
    assert Resolver.HasEntryFor(r, aws);
  }

  /** A template variable in the username breaks the agreement: the bindings name the username that
      every possible caller with that key is given if and only if it contains no template variable, or
      the key is no caller's canonical ARN. */
  lemma TemplatedUserDisagrees(e: Entry, key: string)
    ensures (forall aws :: Resolver.Possible(aws) && aws.canonical == key ==> Resolver.EntryIdentity(e, aws).username == e.Subject())
            <==> (Resolver.TemplateFree(e.Subject()) || Arn.Canonicalize(key) != Arn.Ok(key))
  {
    forall aws | Resolver.Possible(aws) && aws.canonical == key && Resolver.TemplateFree(e.Subject())
      ensures Resolver.EntryIdentity(e, aws).username == e.Subject()
    {
      Resolver.ExpandLiteral(e.Subject(), aws);
    }
    if Arn.Canonicalize(key) == Arn.Ok(key) {
      Resolver.BareIsPossible(key);
      Resolver.ExpandShrinks(e.Subject(), Resolver.Bare(key));
      assert Resolver.EntryIdentity(e, Resolver.Bare(key)).username == Resolver.ExpandTemplates(e.Subject(), Resolver.Bare(key));
    } else {
      forall aws | Resolver.Possible(aws) ensures aws.canonical != key {
        Arn.CanonicalizeIdempotent(aws.arn);
      }
    }
  }
}
