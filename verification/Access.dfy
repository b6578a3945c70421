/** internal/api/access.go on values: what each handler does to a cluster's access entries and to
    the bindings in its API server, and what that keeps over whole runs. */
module Access {
  import opened Text
  import opened Model
  import opened Rbac
  import opened Kube
  import Arn
  import Resolver

  /** One cluster: `ready` means its kubeconfig is known, so that its API server can be reached. */
  datatype State = State(entries: map<string, Entry>, objects: map<Path, Obj>, namespaces: set<string>, ready: bool)

  /* ---------- An entry's policy list ---------- */

  predicate NeedsNamespaces(policies: seq<AssociatedPolicy>) {
    exists p :: p in policies && p.scope.kind == NAMESPACE_SCOPE
  }

  /** Re-associating a policy replaces its scope; a new policy goes to the end. */
  function Upserted(policies: seq<AssociatedPolicy>, p: AssociatedPolicy): seq<AssociatedPolicy> {
    if policies == [] then [p]
    else if policies[0].arn == p.arn then [policies[0].(scope := p.scope)] + policies[1..]
    else [policies[0]] + Upserted(policies[1..], p)
  }

  function Without(policies: seq<AssociatedPolicy>, arn: string): seq<AssociatedPolicy> {
    if policies == [] then []
    else
      var front := Without(policies[..|policies| - 1], arn);
      if Last(policies).arn == arn then front else front + [Last(policies)]
  }

  ghost predicate GoodPolicies(policies: seq<AssociatedPolicy>) {
    UniqueArns(policies) && forall p :: p in policies ==> IsKnownAccessPolicy(p.arn)
  }

  /** Upserting changes the one association named by the ARN, and nothing else. */
  lemma {:induction false} UpsertedAt(policies: seq<AssociatedPolicy>, p: AssociatedPolicy)
    requires UniqueArns(policies)
    ensures forall q :: q in Upserted(policies, p) <==> q == p || (q in policies && q.arn != p.arn)
    ensures UniqueArns(Upserted(policies, p))
    decreases |policies|
  {
    if policies != [] {
      var rest := policies[1..];
      UpsertedAt(rest, p);
      assert policies == [policies[0]] + rest;
      if policies[0].arn != p.arn {
        var r := Upserted(rest, p);
        forall j | 0 <= j < |r| ensures r[j].arn != policies[0].arn {
          assert r[j] in r;
        }
      }
    }
  }

  lemma {:induction false} WithoutAt(policies: seq<AssociatedPolicy>, arn: string)
    requires UniqueArns(policies)
    ensures forall q :: q in Without(policies, arn) <==> q in policies && q.arn != arn
    ensures UniqueArns(Without(policies, arn))
    decreases |policies|
  {
    if policies != [] {
      var front := policies[..|policies| - 1];
      WithoutAt(front, arn);
      assert policies == front + [Last(policies)];
      var r := Without(front, arn);
      forall j | 0 <= j < |r| ensures r[j].arn != Last(policies).arn {
        assert r[j] in r;
      }
    }
  }

  /* ---------- Bindings ---------- */

  /** The source lists namespaces only when some scope has type "namespace". */
  ghost function Visible(policies: seq<AssociatedPolicy>, existing: set<string>): set<string> {
    if NeedsNamespaces(policies) then existing else {}
  }

  /** The bindings the code computes for an entry while `existing` namespaces exist. */
  ghost function Derived(h: Hash, e: Entry, existing: set<string>): set<RBACBinding> {
    Wanted(h, e.principal, e.Subject(), e.policies, Visible(e.policies, existing))
  }

  /** What the code can derive of them when it has no list of namespaces. */
  ghost function Unlisted(h: Hash, e: Entry): set<RBACBinding> {
    Wanted(h, e.principal, e.Subject(), e.policies, {})
  }

  ghost function Paths(bs: set<RBACBinding>): set<Path> {
    set b | b in bs :: b.At()
  }

  function Live(b: RBACBinding): Obj {
    Obj(b.role, b.subject, true)
  }

  /** `after` is `before` with all of `bs` in place and nothing else changed. */
  ghost predicate Applied(before: map<Path, Obj>, bs: set<RBACBinding>, after: map<Path, Obj>) {
    && after - Paths(bs) == before - Paths(bs)
    && forall b :: b in bs ==> b.At() in after && after[b.At()] == Live(b)
  }

  /** What a reconcile that failed part of the way leaves. */
  ghost predicate PartlyApplied(before: map<Path, Obj>, bs: set<RBACBinding>, after: map<Path, Obj>) {
    && after - Paths(bs) == before - Paths(bs)
    && forall b :: b in bs && b.At() in after ==>
         after[b.At()] == Live(b) || (b.At() in before && after[b.At()] == before[b.At()])
  }

  ghost predicate PartlyRemoved(before: map<Path, Obj>, bs: set<RBACBinding>, after: map<Path, Obj>) {
    && after - Paths(bs) == before - Paths(bs)
    && forall p :: p in after ==> p in before && after[p] == before[p]
  }

  /* ---------- The handlers as steps ---------- */

  datatype Op =
    | CreateEntry(principal: string, username: string, groups: seq<string>)
    | DeleteEntry(principal: string)
    | Associate(principal: string, policy: string, scope: Option<AccessScope>)
    | Disassociate(principal: string, policy: string)
    | Bootstrap
    | BecomeReady
    | AddNamespace(name: string)
    | RemoveNamespace(name: string)

  function CanonicalOr(principal: string): string {
    match Arn.Canonicalize(principal)
    case Ok(c) => c
    case Err(_) => principal
  }

  function LookupKey(keys: set<string>, principal: string): Option<string> {
    if CanonicalOr(principal) in keys then Some(CanonicalOr(principal))
    else if principal in keys then Some(principal)
    else None
  }

  function NewEntry(principal: string, username: string, groups: seq<string>): Entry {
    Entry(principal, if username == "" then principal else username, groups, [])
  }

  predicate CreateAccepted(keys: set<string>, principal: string) {
    && principal != ""
    && Arn.Canonicalize(principal).Ok?
    && Arn.Canonicalize(principal).value !in keys
  }

  function ScopeOf(scope: Option<AccessScope>): AccessScope {
    if scope.Some? then scope.value else AccessScope(CLUSTER_SCOPE, [])
  }

  predicate AssociateAccepted(keys: set<string>, principal: string, policy: string, scope: Option<AccessScope>) {
    && LookupKey(keys, principal).Some?
    && IsKnownAccessPolicy(policy)
    && !(ScopeOf(scope).kind == NAMESPACE_SCOPE && ScopeOf(scope).namespaces == [])
  }

  function CreatorEntry(creator: string): Entry {
    Entry(creator, creator, [], [AssociatedPolicy(CLUSTER_ADMIN_POLICY, AccessScope(CLUSTER_SCOPE, []))])
  }

  /** The key of the one entry a step reconciles, and that entry after the step (`None` when it is
      deleted); `None` for rejected requests and for steps that reconcile nothing. */
  function Target(creator: string, s: State, op: Op): Option<(string, Option<Entry>)> {
    match op
    case DeleteEntry(principal) =>
      var key := LookupKey(s.entries.Keys, principal);
      if key.Some? then Some((key.value, None)) else None
    case Associate(principal, policy, scope) =>
      if AssociateAccepted(s.entries.Keys, principal, policy, scope) then
        var key := LookupKey(s.entries.Keys, principal).value;
        var e := s.entries[key];
        Some((key, Some(e.(policies := Upserted(e.policies, AssociatedPolicy(policy, ScopeOf(scope)))))))
      else None
    case Disassociate(principal, policy) =>
      var key := LookupKey(s.entries.Keys, principal);
      if key.Some? then
        var e := s.entries[key.value];
        Some((key.value, Some(e.(policies := Without(e.policies, policy)))))
      else None
    case Bootstrap => if s.ready then Some((creator, Some(CreatorEntry(creator)))) else None
    case _ => None
  }

  /** Only deleting and disassociating remove bindings, and they remove those of the old entry. */
  ghost function Removed(h: Hash, s: State, op: Op, key: string): set<RBACBinding> {
    if (op.DeleteEntry? || op.Disassociate?) && key in s.entries then Derived(h, s.entries[key], s.namespaces) else {}
  }

  ghost function Added(h: Hash, s: State, after: Option<Entry>): set<RBACBinding> {
    if after.Some? then Derived(h, after.value, s.namespaces) else {}
  }

  /** Whether every API call of a step's removals succeeded, and every one of its reconcile. Where one
      did not, the step may stop at any call, whose effect may or may not have happened. */
  datatype Calls = Calls(revoked: bool, applied: bool)

  const CLEAN := Calls(true, true)

  /** A step of the cluster. */
  ghost predicate Next(h: Hash, creator: string, s: State, op: Op, calls: Calls, t: State) {
    match op
    case CreateEntry(principal, username, groups) =>
      if CreateAccepted(s.entries.Keys, principal) then
        t == s.(entries := s.entries[Arn.Canonicalize(principal).value := NewEntry(principal, username, groups)])
      else t == s
    case BecomeReady =>
      if s.ready then t == s
      else
        && t.entries == s.entries && t.ready && "" !in t.namespaces
        && (forall p :: p in t.objects ==> Placeable(p, t.namespaces) && !t.objects[p].owned)
        && RolesFit(h, t.objects)
    case AddNamespace(name) =>
      t == if s.ready && name != "" then s.(namespaces := s.namespaces + {name}) else s
    case RemoveNamespace(name) =>
      t == if name == "" then s
           else s.(namespaces := s.namespaces - {name}, objects := map p | p in s.objects && p.ns != name :: s.objects[p])
    case _ =>
      var target := Target(creator, s, op);
      if target.None? then t == s
      else Reconciled(h, s, op, calls, t, target.value.0, target.value.1)
  }

  ghost predicate Reconciled(h: Hash, s: State, op: Op, calls: Calls, t: State, key: string, after: Option<Entry>) {
    && t.namespaces == s.namespaces && t.ready == s.ready
    && t.entries == (if after.Some? then s.entries[key := after.value] else s.entries - {key})
    && if !s.ready then t.objects == s.objects
       else exists middle :: ThroughMiddle(h, s, op, calls, t, key, after, middle)
  }

  /** First the removals, then the reconcile; `middle` is the API server's state in between. */
  ghost predicate ThroughMiddle(h: Hash, s: State, op: Op, calls: Calls, t: State, key: string, after: Option<Entry>, middle: map<Path, Obj>) {
    && PartlyRemoved(s.objects, Removed(h, s, op, key), middle)
    && PartlyApplied(middle, Added(h, s, after), t.objects)
    && (calls.revoked ==> middle == s.objects - Paths(Removed(h, s, op, key)))
    && (calls.applied ==> Applied(middle, Added(h, s, after), t.objects))
    && forall p :: p in t.objects ==> Placeable(p, t.namespaces)
  }

  /* ---------- The requests in plain text ---------- */

  /** The entry a request names: the one under its canonical ARN, or else under the ARN as given. */
  ghost predicate Names(keys: set<string>, principal: string, key: string) {
    match Arn.Canonicalize(principal)
    case Ok(c) => if c in keys then key == c else key == principal && key in keys
    case Err(_) => key == principal && key in keys
  }

  ghost predicate OthersSame(before: map<string, Entry>, after: map<string, Entry>, key: string) {
    forall k :: k != key ==> (k in after <==> k in before) && (k in before ==> after[k] == before[k])
  }

  /** `after` differs from `before` in its policies alone. */
  ghost predicate SameIdentity(before: Entry, after: Entry) {
    after.principal == before.principal && after.username == before.username && after.groups == before.groups
  }

  lemma LookupIsNames(keys: set<string>, principal: string, key: string)
    ensures LookupKey(keys, principal) == Some(key) <==> Names(keys, principal, key)
  {
  }

  /** A create is accepted for a principal with a canonical form that no entry is filed under, and
      files an entry without policies there; the username is the principal unless one is given. */
  lemma CreateMeans(h: Hash, creator: string, s: State, principal: string, username: string, groups: seq<string>, calls: Calls, t: State)
    requires Next(h, creator, s, CreateEntry(principal, username, groups), calls, t)
    ensures t == s.(entries := t.entries)
    ensures match Arn.Canonicalize(principal)
            case Ok(key) =>
              if key in s.entries then t == s
              else && key in t.entries && OthersSame(s.entries, t.entries, key)
                   && t.entries[key].principal == principal && t.entries[key].groups == groups && t.entries[key].policies == []
                   && t.entries[key].username == (if username == "" then principal else username)
            case Err(_) => t == s
  {
  }

  /** What is wanted of an association: one of the five policies, and not a scope of type "namespace"
      without namespaces. */
  ghost predicate Acceptable(policy: string, scope: Option<AccessScope>) {
    && (exists role, name :: Defines(policy, role, name))
    && scope != Some(AccessScope("namespace", []))
  }

  /** An associate sets the policy's scope, "cluster" unless one is given, in the entry it names, and
      leaves the entry's other associations, its identity and the other entries alone. */
  lemma AssociateMeans(h: Hash, creator: string, s: State, principal: string, policy: string, scope: Option<AccessScope>,
                       calls: Calls, t: State, key: string)
    requires Inv(h, s) && Names(s.entries.Keys, principal, key)
    requires Next(h, creator, s, Associate(principal, policy, scope), calls, t)
    ensures !Acceptable(policy, scope) ==> t == s
    ensures Acceptable(policy, scope) ==>
              && key in t.entries && OthersSame(s.entries, t.entries, key) && SameIdentity(s.entries[key], t.entries[key])
              && var wanted := if scope == None then AccessScope("cluster", []) else scope.value;
                 forall q :: q in t.entries[key].policies <==>
                   q == AssociatedPolicy(policy, wanted) || (q in s.entries[key].policies && q.arn != policy)
  {
    LookupIsNames(s.entries.Keys, principal, key);
    KnownIsDefined(policy);
    UpsertedAt(s.entries[key].policies, AssociatedPolicy(policy, ScopeOf(scope)));
  }

  /** A disassociate takes the policy out of the entry it names, and no other. */
  lemma DisassociateMeans(h: Hash, creator: string, s: State, principal: string, policy: string, calls: Calls, t: State, key: string)
    requires Inv(h, s) && Names(s.entries.Keys, principal, key)
    requires Next(h, creator, s, Disassociate(principal, policy), calls, t)
    ensures key in t.entries && OthersSame(s.entries, t.entries, key) && SameIdentity(s.entries[key], t.entries[key])
    ensures forall q :: q in t.entries[key].policies <==> q in s.entries[key].policies && q.arn != policy
  {
    LookupIsNames(s.entries.Keys, principal, key);
    WithoutAt(s.entries[key].policies, policy);
  }

  /** A delete removes the entry it names; a request that names none changes nothing. */
  lemma DeleteMeans(h: Hash, creator: string, s: State, op: Op, calls: Calls, t: State)
    requires (op.DeleteEntry? || op.Associate? || op.Disassociate?) && Next(h, creator, s, op, calls, t)
    ensures (forall key :: !Names(s.entries.Keys, op.principal, key)) ==> t == s
    ensures forall key :: op.DeleteEntry? && Names(s.entries.Keys, op.principal, key) ==>
              key !in t.entries && OthersSame(s.entries, t.entries, key)
  {
    forall key ensures LookupKey(s.entries.Keys, op.principal) == Some(key) <==> Names(s.entries.Keys, op.principal, key) {
      LookupIsNames(s.entries.Keys, op.principal, key);
    }
  }

  /** Bootstrapping gives the creator ClusterAdmin, cluster-wide, and nothing else. */
  lemma BootstrapMeans(h: Hash, creator: string, s: State, calls: Calls, t: State)
    requires s.ready && Next(h, creator, s, Bootstrap, calls, t)
    ensures OthersSame(s.entries, t.entries, creator)
    ensures creator in t.entries
         && t.entries[creator] == Entry(creator, creator, [], [AssociatedPolicy(
              "arn:aws:eks::aws:cluster-access-policy/AmazonEKSClusterAdminPolicy", AccessScope("cluster", []))])
  {
    ClusterAdminText();
  }

  /** The bindings derived for an entry, in plain text: the subject is its username or else its
      principal, and patterns see the namespaces only if some scope has type "namespace". */
  lemma DerivedIsImplied(h: Hash, e: Entry, existing: set<string>)
    ensures forall b :: b in Derived(h, e, existing) <==>
              exists p :: p in e.policies
                && Implies(h, e.principal, if e.username == "" then e.principal else e.username, p,
                           if exists q :: q in e.policies && q.scope.kind == "namespace" then existing else {}, b)
  {
    WantedIsImplied(h, e.principal, e.Subject(), e.policies, Visible(e.policies, existing));
  }

  /* ---------- Invariants ---------- */

  /** Every object at a generated name has the role of the policy in that name, so replacing it
      never needs a different role reference. */
  ghost predicate RolesFit(h: Hash, objects: map<Path, Obj>) {
    forall p, principal, policy ::
      p in objects && IsKnownAccessPolicy(policy) && p.name == BindingName(h, principal, policy, p.ns)
      ==> RoleOf(policy) == Some(objects[p].role)
  }

  /** Requests file an entry under its principal's canonical ARN, bootstrapping under the creator's ARN as it is. */
  ghost predicate KeyFits(creator: string, key: string, e: Entry) {
    Arn.Canonicalize(e.principal) == Arn.Ok(key) || (key == creator && e.principal == creator)
  }

  ghost predicate KeysFit(creator: string, s: State) {
    forall k :: k in s.entries ==> KeyFits(creator, k, s.entries[k])
  }

  ghost predicate Inv(h: Hash, s: State) {
    && (forall k :: k in s.entries ==> GoodPolicies(s.entries[k].policies))
    && "" !in s.namespaces
    && (forall p :: p in s.objects ==> Placeable(p, s.namespaces))
    && RolesFit(h, s.objects)
    && (!s.ready ==> s.objects == map[] && s.namespaces == {})
  }

  lemma DerivedFacts(h: Hash, e: Entry, existing: set<string>, b: RBACBinding)
    requires b in Derived(h, e, existing)
    ensures exists p :: p in e.policies && IsKnownAccessPolicy(p.arn) && b.name == BindingName(h, e.principal, p.arn, b.ns)
              && RoleOf(p.arn) == Some(b.role) && b.subject == e.Subject()
              && b.ns in Granted(p.scope, Visible(e.policies, existing))
  {
  }

  /** The policy lists stay duplicate-free and known. */
  lemma TargetKeepsPolicies(creator: string, s: State, op: Op)
    requires forall k :: k in s.entries ==> GoodPolicies(s.entries[k].policies)
    requires Target(creator, s, op).Some?
    ensures var (_, after) := Target(creator, s, op).value;
            after.Some? ==> GoodPolicies(after.value.policies)
  {
    var (key, after) := Target(creator, s, op).value;
    match op
    case Associate(_, policy, scope) => UpsertedAt(s.entries[key].policies, AssociatedPolicy(policy, ScopeOf(scope)));
    case Disassociate(_, policy) => WithoutAt(s.entries[key].policies, policy);
    case _ =>
  }

  lemma TargetKeyFits(creator: string, s: State, op: Op)
    requires KeysFit(creator, s) && Target(creator, s, op).Some?
    ensures var (key, after) := Target(creator, s, op).value;
            after.Some? ==> KeyFits(creator, key, after.value)
  {
  }

  /** Keys stay functions of the principals. */
  lemma StepKeepsKeys(h: Hash, creator: string, s: State, op: Op, calls: Calls, t: State)
    requires KeysFit(creator, s) && Next(h, creator, s, op, calls, t)
    ensures KeysFit(creator, t)
  {
    if Target(creator, s, op).Some? {
      TargetKeyFits(creator, s, op);
    }
  }

  lemma AppliedKeepsRoles(h: Hash, e: Entry, existing: set<string>, before: map<Path, Obj>, after: map<Path, Obj>)
    requires RolesFit(h, before) && PartlyApplied(before, Derived(h, e, existing), after)
    ensures RolesFit(h, after)
  {
    var bs := Derived(h, e, existing);
    forall p, principal, policy | p in after && IsKnownAccessPolicy(policy) && p.name == BindingName(h, principal, policy, p.ns)
      ensures RoleOf(policy) == Some(after[p].role)
    {
      if p in Paths(bs) {
        var b :| b in bs && b.At() == p;
        DerivedFacts(h, e, existing, b);
        var q :| q in e.policies && IsKnownAccessPolicy(q.arn) && b.name == BindingName(h, e.principal, q.arn, b.ns) && RoleOf(q.arn) == Some(b.role);
        NameDeterminesPolicy(h, principal, policy, e.principal, q.arn, p.ns);
      } else {
        assert p in after - Paths(bs);
      }
    }
  }

  lemma RemovedKeepsRoles(h: Hash, before: map<Path, Obj>, bs: set<RBACBinding>, after: map<Path, Obj>)
    requires RolesFit(h, before) && PartlyRemoved(before, bs, after)
    ensures RolesFit(h, after)
  {
  }

  lemma TargetKeepsRoles(h: Hash, s: State, op: Op, calls: Calls, t: State, key: string, after: Option<Entry>)
    requires RolesFit(h, s.objects) && s.ready && Reconciled(h, s, op, calls, t, key, after)
    ensures RolesFit(h, t.objects)
  {
    var middle :| ThroughMiddle(h, s, op, calls, t, key, after, middle);
    RemovedKeepsRoles(h, s.objects, Removed(h, s, op, key), middle);
    if after.Some? {
      AppliedKeepsRoles(h, after.value, s.namespaces, middle, t.objects);
    } else {
      assert middle - Paths({}) == middle && t.objects - Paths({}) == t.objects;
    }
  }

  /** Every step keeps the invariant, whether or not its API calls succeed. */
  lemma StepKeepsInv(h: Hash, creator: string, s: State, op: Op, calls: Calls, t: State)
    requires Inv(h, s) && Next(h, creator, s, op, calls, t)
    ensures Inv(h, t)
  {
    var target := Target(creator, s, op);
    if target.Some? {
      var (key, after) := target.value;
      TargetKeepsPolicies(creator, s, op);
      if s.ready {
        TargetKeepsRoles(h, s, op, calls, t, key, after);
      }
    } else if op.RemoveNamespace? {
      assert forall p :: p in t.objects ==> p in s.objects && t.objects[p] == s.objects[p];
    }
  }
}
