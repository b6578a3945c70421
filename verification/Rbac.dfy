/** internal/identity/rbac.go: the RBAC objects one access entry implies. */
module Rbac {
  import opened Text
  import opened Model

  /** The first ten hex digits of the SHA-1 of a string. Only its being a function matters, except
      where a lemma asks for `Injective`. */
  type Hash = string -> string

  ghost predicate Injective(h: Hash) {
    forall a, b :: h(a) == h(b) ==> a == b
  }

  /** Where an object lives: a ClusterRoleBinding has the empty namespace. */
  datatype Path = Path(ns: string, name: string)

  datatype RBACBinding = RBACBinding(name: string, ns: string, role: string, subject: string) {
    predicate ClusterScoped() {
      ns == ""
    }

    function At(): Path {
      Path(ns, name)
    }
  }

  /* ---------- Policies and names ---------- */

  function RoleOf(policy: string): Option<string> {
    if policy == CLUSTER_ADMIN_POLICY then Some("cluster-admin")
    else if policy == ADMIN_POLICY then Some("admin")
    else if policy == EDIT_POLICY then Some("edit")
    else if policy == VIEW_POLICY then Some("view")
    else if policy == ADMIN_VIEW_POLICY then Some("view")
    else None
  }

  /** What looking a policy up in the map gives, known or not. */
  function BoundRole(policy: string): string {
    match RoleOf(policy)
    case Some(role) => role
    case None => ""
  }

  predicate IsKnownAccessPolicy(policy: string) {
    RoleOf(policy).Some?
  }

  /** The last path segment of a policy ARN. */
  function PolicyName(policy: string): string {
    AfterLast(policy, '/')
  }

  function HashKey(principal: string, policy: string, ns: string): string {
    principal + "|" + policy + "|" + ns
  }

  function BindingName(h: Hash, principal: string, policy: string, ns: string): string {
    "eksuvia-" + Lower(PolicyName(policy)) + "-" + h(HashKey(principal, policy, ns))
  }

  ghost function KnownName(policy: string): string
    requires IsKnownAccessPolicy(policy)
  {
    if policy == CLUSTER_ADMIN_POLICY then CLUSTER_ADMIN_NAME
    else if policy == ADMIN_POLICY then ADMIN_NAME
    else if policy == EDIT_POLICY then EDIT_NAME
    else if policy == VIEW_POLICY then VIEW_NAME
    else ADMIN_VIEW_NAME
  }

  lemma NamesArePlain()
    ensures forall n | n in [CLUSTER_ADMIN_NAME, ADMIN_NAME, EDIT_NAME, VIEW_NAME, ADMIN_VIEW_NAME] ::
              '/' !in n && '-' !in n && '|' !in n
  {
  }

  lemma NameAfterPrefix(prefix: string, name: string)
    requires '/' !in name && '-' !in name && '|' !in name && '|' !in prefix
    ensures PolicyName(prefix + "/" + name) == name
    ensures '-' !in Lower(name) && '|' !in prefix + "/" + name
  {
    AfterLastOf(prefix, '/', name);
    LowerContains(name, '-');
  }

  lemma KnownPolicy(policy: string)
    requires IsKnownAccessPolicy(policy)
    ensures PolicyName(policy) == KnownName(policy)
    ensures '-' !in Lower(PolicyName(policy)) && '|' !in policy
  {
    NamesArePlain();
    PrefixIsPlain();
    var name := KnownName(policy);
    assert name in [CLUSTER_ADMIN_NAME, ADMIN_NAME, EDIT_NAME, VIEW_NAME, ADMIN_VIEW_NAME];
    KnownIsPrefixed(policy);
    NameAfterPrefix(POLICY_PREFIX, name);
  }

  lemma PrefixIsPlain()
    ensures '|' !in POLICY_PREFIX
  {
  }

  lemma KnownIsPrefixed(policy: string)
    requires IsKnownAccessPolicy(policy)
    ensures policy == POLICY_PREFIX + "/" + KnownName(policy)
  {
  }

  lemma KnownNamesDiffer(p: string, q: string)
    requires IsKnownAccessPolicy(p) && IsKnownAccessPolicy(q)
    requires Lower(KnownName(p)) == Lower(KnownName(q))
    ensures p == q
  {
    var a, b := KnownName(p), KnownName(q);
    assert |a| == |Lower(a)| == |Lower(b)| == |b|;
    assert |CLUSTER_ADMIN_NAME| == 27 && |ADMIN_NAME| == 20 && |EDIT_NAME| == 19 && |VIEW_NAME| == 19 && |ADMIN_VIEW_NAME| == 24;
    assert Lower(EDIT_NAME)[9] == 'e' && Lower(VIEW_NAME)[9] == 'v';
  }

  /** Two known policies never share a binding name in one namespace, whatever the principals and
      whatever the hash; and equal names come from equal hashes. */
  lemma NameDeterminesPolicy(h: Hash, principal: string, policy: string, principal': string, policy': string, ns: string)
    requires IsKnownAccessPolicy(policy) && IsKnownAccessPolicy(policy')
    requires BindingName(h, principal, policy, ns) == BindingName(h, principal', policy', ns)
    ensures policy == policy'
    ensures h(HashKey(principal, policy, ns)) == h(HashKey(principal', policy', ns))
  {
    KnownPolicy(policy);
    KnownPolicy(policy');
    NameParts("eksuvia-", Lower(PolicyName(policy)), h(HashKey(principal, policy, ns)),
              Lower(PolicyName(policy')), h(HashKey(principal', policy', ns)));
    KnownNamesDiffer(policy, policy');
  }

  lemma NameParts(prefix: string, x: string, u: string, y: string, v: string)
    requires '-' !in x && '-' !in y
    requires prefix + x + "-" + u == prefix + y + "-" + v
    ensures x == y && u == v
  {
    var n := |prefix|;
    assert (prefix + x + "-" + u)[n..] == x + "-" + u;
    assert (prefix + y + "-" + v)[n..] == y + "-" + v;
    FirstSeparatorUnique(x, u, y, v, '-');
  }

  lemma CancelTail(a: string, b: string, tail: string)
    requires a + tail == b + tail
    ensures a == b
  {
    assert |a| == |b|;
    assert a == (a + tail)[..|a|] && b == (b + tail)[..|b|];
  }

  lemma BarsSeparate(a: string, x: string, b: string, y: string, ns: string)
    requires '|' !in x && '|' !in y
    requires a + "|" + x + "|" + ns == b + "|" + y + "|" + ns
    ensures a == b && x == y
  {
    var u, v := a + "|" + x, b + "|" + y;
    assert u + "|" + ns == u + ("|" + ns) && v + "|" + ns == v + ("|" + ns);
    CancelTail(u, v, "|" + ns);
    LastSeparatorUnique(a, x, b, y, '|');
  }

  /** The text that is hashed names its principal and policy within any one namespace ... */
  lemma KeyInjectiveInNamespace(principal: string, policy: string, principal': string, policy': string, ns: string)
    requires IsKnownAccessPolicy(policy) && IsKnownAccessPolicy(policy')
    requires HashKey(principal, policy, ns) == HashKey(principal', policy', ns)
    ensures principal == principal' && policy == policy'
  {
    KnownPolicy(policy);
    KnownPolicy(policy');
    BarsSeparate(principal, policy, principal', policy', ns);
  }

  /** ... and, for namespaces without a bar, the namespace too. */
  lemma KeyInjective(principal: string, policy: string, ns: string, principal': string, policy': string, ns': string)
    requires IsKnownAccessPolicy(policy) && IsKnownAccessPolicy(policy') && '|' !in ns && '|' !in ns'
    requires HashKey(principal, policy, ns) == HashKey(principal', policy', ns')
    ensures principal == principal' && policy == policy' && ns == ns'
  {
    LastSeparatorUnique(principal + "|" + policy, ns, principal' + "|" + policy', ns', '|');
    KeyInjectiveInNamespace(principal, policy, principal', policy', ns);
  }

  /** So, as far as the hash separates keys, an object's place names its principal and policy. */
  lemma NameInjective(h: Hash, principal: string, policy: string, principal': string, policy': string, ns: string)
    requires Injective(h)
    requires IsKnownAccessPolicy(policy) && IsKnownAccessPolicy(policy')
    requires BindingName(h, principal, policy, ns) == BindingName(h, principal', policy', ns)
    ensures principal == principal' && policy == policy'
  {
    NameDeterminesPolicy(h, principal, policy, principal', policy', ns);
    KeyInjectiveInNamespace(principal, policy, principal', policy', ns);
  }

  /* ---------- Namespace patterns ---------- */

  function TrimStar(pattern: string): string {
    if |pattern| > 0 && Last(pattern) == '*' then pattern[..|pattern| - 1] else pattern
  }

  /** The namespaces one pattern denotes: itself, or the existing ones its prefix matches. */
  ghost function ExpandOne(pattern: string, existing: set<string>): set<string> {
    if '*' !in pattern then {pattern} else set n | n in existing && HasPrefix(n, TrimStar(pattern))
  }

  ghost function ExpandSet(patterns: seq<string>, existing: set<string>): set<string> {
    set p, n | p in patterns && n in ExpandOne(p, existing) :: n
  }

  ghost function Elements<T>(s: seq<T>): set<T> {
    set x | x in s
  }

  method ExpandNamespaces(patterns: seq<string>, existing: seq<string>) returns (out: seq<string>)
    ensures StrictlySorted(out, Less)
    ensures Elements(out) == ExpandSet(patterns, Elements(existing))
  {
    var seen := {};
    out := [];
    for i := 0 to |patterns|
      invariant NoDuplicates(out) && Elements(out) == seen == ExpandSet(patterns[..i], Elements(existing))
    {
      var pattern := patterns[i];
      assert patterns[..i + 1] == patterns[..i] + [pattern];
      if '*' !in pattern {
        if pattern !in seen {
          seen := seen + {pattern};
          out := out + [pattern];
        }
      } else {
        var prefix := TrimStar(pattern);
        ghost var before := seen;
        for j := 0 to |existing|
          invariant NoDuplicates(out) && Elements(out) == seen == before + ExpandOne(pattern, Elements(existing[..j]))
        {
          var ns := existing[j];
          assert existing[..j + 1] == existing[..j] + [ns];
          assert ExpandOne(pattern, Elements(existing[..j + 1]))
              == ExpandOne(pattern, Elements(existing[..j])) + if HasPrefix(ns, prefix) then {ns} else {};
          if HasPrefix(ns, prefix) && ns !in seen {
            seen := seen + {ns};
            out := out + [ns];
          }
        }
        assert existing[..|existing|] == existing;
      }
      assert ExpandSet(patterns[..i + 1], Elements(existing))
          == ExpandSet(patterns[..i], Elements(existing)) + ExpandOne(pattern, Elements(existing));
    }
    assert patterns[..|patterns|] == patterns;
    SortStringsStrict(out);
    out := Sort(out, Less);
  }

  /* ---------- The bindings of an entry ---------- */

  /** Any scope type other than "cluster" is treated as a list of namespaces. */
  ghost function Granted(scope: AccessScope, existing: set<string>): set<string> {
    if scope.kind == CLUSTER_SCOPE then {""} else ExpandSet(scope.namespaces, existing)
  }

  function MakeBinding(h: Hash, principal: string, username: string, policy: string, ns: string): RBACBinding {
    RBACBinding(BindingName(h, principal, policy, ns), ns, BoundRole(policy), username)
  }

  ghost function Made(h: Hash, principal: string, username: string, policy: string, names: set<string>): set<RBACBinding> {
    set n | n in names :: MakeBinding(h, principal, username, policy, n)
  }

  ghost function PolicyBindings(h: Hash, principal: string, username: string, p: AssociatedPolicy, existing: set<string>): set<RBACBinding> {
    if IsKnownAccessPolicy(p.arn) then Made(h, principal, username, p.arn, Granted(p.scope, existing)) else {}
  }

  /** Every binding an entry's policy list implies. */
  ghost function Wanted(h: Hash, principal: string, username: string, policies: seq<AssociatedPolicy>, existing: set<string>): set<RBACBinding> {
    set p, b | p in policies && b in PolicyBindings(h, principal, username, p, existing) :: b
  }

  ghost predicate UniqueArns(policies: seq<AssociatedPolicy>) {
    forall i, j :: 0 <= i < j < |policies| ==> policies[i].arn != policies[j].arn
  }

  predicate BindingLess(a: RBACBinding, b: RBACBinding) {
    if a.ns != b.ns then Less(a.ns, b.ns) else Less(a.name, b.name)
  }

  lemma BindingOrder()
    ensures WeakOrder(BindingLess)
  {
    forall a: RBACBinding, b: RBACBinding | BindingLess(a, b) ensures !BindingLess(b, a) {
      LessTotal(a.ns, b.ns);
      LessTotal(a.name, b.name);
    }
    StringOrder();
    forall a: RBACBinding, b: RBACBinding, c: RBACBinding | BindingLess(a, b)
      ensures BindingLess(a, c) || BindingLess(c, b)
    {
      LessTotal(a.ns, c.ns);
      LessTotal(c.ns, b.ns);
      if a.ns != c.ns && c.ns != b.ns && Less(c.ns, a.ns) && a.ns != b.ns {
        LessTransitive(c.ns, a.ns, b.ns);
      }
    }
  }

  /** With one association per policy, a binding's place determines the binding. */
  lemma PathsDistinct(h: Hash, principal: string, username: string, policies: seq<AssociatedPolicy>, existing: set<string>,
                      b: RBACBinding, c: RBACBinding)
    requires UniqueArns(policies)
    requires b in Wanted(h, principal, username, policies, existing)
    requires c in Wanted(h, principal, username, policies, existing)
    requires b.At() == c.At()
    ensures b == c
  {
    var p :| p in policies && b in PolicyBindings(h, principal, username, p, existing);
    var q :| q in policies && c in PolicyBindings(h, principal, username, q, existing);
    NameDeterminesPolicy(h, principal, p.arn, principal, q.arn, b.ns);
  }

  lemma AppendNew<T>(s: seq<T>, x: T)
    ensures Elements(s + [x]) == Elements(s) + {x}
    ensures NoDuplicates(s) && x !in Elements(s) ==> NoDuplicates(s + [x])
  {
    if NoDuplicates(s) && x !in Elements(s) {
      var t := s + [x];
      forall i, j | 0 <= i < j < |t| ensures t[i] != t[j] {
        assert s[i] in Elements(s);
      }
    }
  }

  lemma WantedAppend(h: Hash, principal: string, username: string, ps: seq<AssociatedPolicy>, p: AssociatedPolicy, existing: set<string>)
    ensures Wanted(h, principal, username, ps + [p], existing)
         == Wanted(h, principal, username, ps, existing) + PolicyBindings(h, principal, username, p, existing)
  {
  }

  lemma MadeAppend(h: Hash, principal: string, username: string, policy: string, names: seq<string>, n: string)
    ensures Made(h, principal, username, policy, Elements(names + [n]))
         == Made(h, principal, username, policy, Elements(names)) + {MakeBinding(h, principal, username, policy, n)}
    ensures MakeBinding(h, principal, username, policy, n) in Made(h, principal, username, policy, Elements(names)) ==> n in names
  {
    AppendNew(names, n);
  }

  /** The list the source returns: sorted by namespace and name, with exactly the wanted bindings,
      and without repetition as long as no policy is listed twice. */
  method BindingsFor(h: Hash, principal: string, policies: seq<AssociatedPolicy>, username: string, existing: seq<string>)
    returns (out: seq<RBACBinding>)
    ensures Elements(out) == Wanted(h, principal, username, policies, Elements(existing))
    ensures Sorted(out, BindingLess)
    ensures UniqueArns(policies) ==> StrictlySorted(out, BindingLess)
    ensures forall i, j :: 0 <= i < j < |out| ==>
              if out[i].ns == out[j].ns then !Less(out[j].name, out[i].name) else !Less(out[j].ns, out[i].ns)
    ensures forall b :: b in out <==> exists p :: p in policies && Implies(h, principal, username, p, Elements(existing), b)
    ensures (exists b :: b in out && b.role == "cluster-admin")
       <==> (exists p :: p in policies && p.arn == "arn:aws:eks::aws:cluster-access-policy/AmazonEKSClusterAdminPolicy"
               && exists ns :: Grants(p.scope, Elements(existing), ns))
  {
    out := [];
    ghost var ex := Elements(existing);
    for i := 0 to |policies|
      invariant Elements(out) == Wanted(h, principal, username, policies[..i], ex)
      invariant UniqueArns(policies) ==> NoDuplicates(out)
    {
      var policy := policies[i];
      ghost var before := Elements(out);
      assert policies[..i + 1] == policies[..i] + [policy];
      WantedAppend(h, principal, username, policies[..i], policy, ex);
      if IsKnownAccessPolicy(policy.arn) {
        if policy.scope.kind == CLUSTER_SCOPE {
          NewPolicyIsFresh(h, principal, username, policies, i, ex, "");
          AppendNew(out, MakeBinding(h, principal, username, policy.arn, ""));
          out := out + [MakeBinding(h, principal, username, policy.arn, "")];
        } else {
          var names := ExpandNamespaces(policy.scope.namespaces, existing);
          var some := NamespaceBindings(h, principal, username, policy.arn, names);
          forall b | b in Elements(some) && UniqueArns(policies) ensures b !in Elements(out) {
            NewPolicyIsFresh(h, principal, username, policies, i, ex, b.ns);
          }
          ConcatNew(out, some);
          out := out + some;
        }
      }
    }
    assert policies[..|policies|] == policies;
    SortBindings(h, principal, username, policies, ex, out);
    out := Sort(out, BindingLess);
    ListMeans(h, principal, username, policies, ex, out);
  }

  lemma ConcatNew<T>(s: seq<T>, t: seq<T>)
    ensures Elements(s + t) == Elements(s) + Elements(t)
    ensures NoDuplicates(s) && NoDuplicates(t) && Elements(s) !! Elements(t) ==> NoDuplicates(s + t)
  {
    if NoDuplicates(s) && NoDuplicates(t) && Elements(s) !! Elements(t) {
      forall i, j | 0 <= i < j < |s + t| ensures (s + t)[i] != (s + t)[j] {
        if i < |s| <= j {
          assert s[i] in Elements(s) && t[j - |s|] in Elements(t);
        }
      }
    }
  }

  /** One binding per namespace of a policy. */
  method NamespaceBindings(h: Hash, principal: string, username: string, policy: string, names: seq<string>) returns (bs: seq<RBACBinding>)
    requires StrictlySorted(names, Less)
    ensures Elements(bs) == Made(h, principal, username, policy, Elements(names)) && NoDuplicates(bs)
  {
    bs := [];
    for j := 0 to |names|
      invariant Elements(bs) == Made(h, principal, username, policy, Elements(names[..j])) && NoDuplicates(bs)
    {
      var ns := names[j];
      assert names[..j + 1] == names[..j] + [ns];
      LessTotal(ns, ns);
      MadeAppend(h, principal, username, policy, names[..j], ns);
      AppendNew(bs, MakeBinding(h, principal, username, policy, ns));
      bs := bs + [MakeBinding(h, principal, username, policy, ns)];
    }
    assert names[..|names|] == names;
  }

  lemma SortBindings(h: Hash, principal: string, username: string, policies: seq<AssociatedPolicy>, existing: set<string>, out: seq<RBACBinding>)
    requires Elements(out) == Wanted(h, principal, username, policies, existing)
    requires UniqueArns(policies) ==> NoDuplicates(out)
    ensures Elements(Sort(out, BindingLess)) == Elements(out)
    ensures Sorted(Sort(out, BindingLess), BindingLess)
    ensures UniqueArns(policies) ==> StrictlySorted(Sort(out, BindingLess), BindingLess)
  {
    BindingOrder();
    SortSorts(out, BindingLess);
    if UniqueArns(policies) {
      forall b, c | b in out && c in out && b != c ensures BindingLess(b, c) || BindingLess(c, b) {
        assert b in Elements(out) && c in Elements(out);
        LessTotal(b.ns, c.ns);
        LessTotal(b.name, c.name);
        if b.At() == c.At() {
          PathsDistinct(h, principal, username, policies, existing, b, c);
        }
      }
      SortStrict(out, BindingLess);
    }
  }

  lemma NewPolicyIsFresh(h: Hash, principal: string, username: string, policies: seq<AssociatedPolicy>, i: nat, existing: set<string>, ns: string)
    requires i < |policies| && IsKnownAccessPolicy(policies[i].arn)
    ensures UniqueArns(policies) ==>
              MakeBinding(h, principal, username, policies[i].arn, ns) !in Wanted(h, principal, username, policies[..i], existing)
  {
    var b := MakeBinding(h, principal, username, policies[i].arn, ns);
    if b in Wanted(h, principal, username, policies[..i], existing) {
      var p :| p in policies[..i] && b in PolicyBindings(h, principal, username, p, existing);
      NameDeterminesPolicy(h, principal, p.arn, principal, policies[i].arn, ns);
    }
  }

  /* ---------- The list in plain text ---------- */

  /** The five policies AWS defines, the ClusterRole that each stands for, and its name in
      lower case. */
  ghost predicate Defines(policy: string, role: string, name: string) {
    || (policy == "arn:aws:eks::aws:cluster-access-policy/AmazonEKSClusterAdminPolicy"
        && role == "cluster-admin" && name == "amazoneksclusteradminpolicy")
    || (policy == "arn:aws:eks::aws:cluster-access-policy/AmazonEKSAdminPolicy"
        && role == "admin" && name == "amazoneksadminpolicy")
    || (policy == "arn:aws:eks::aws:cluster-access-policy/AmazonEKSEditPolicy"
        && role == "edit" && name == "amazonekseditpolicy")
    || (policy == "arn:aws:eks::aws:cluster-access-policy/AmazonEKSViewPolicy"
        && role == "view" && name == "amazoneksviewpolicy")
    || (policy == "arn:aws:eks::aws:cluster-access-policy/AmazonEKSAdminViewPolicy"
        && role == "view" && name == "amazoneksadminviewpolicy")
  }

  /** A pattern without a star names one namespace, whether or not it exists; with a star, one of
      which is dropped from its end, the existing namespaces that begin with the rest. */
  ghost predicate Denotes(pattern: string, existing: set<string>, ns: string) {
    if '*' !in pattern then ns == pattern
    else ns in existing && exists prefix :: prefix <= ns && (pattern == prefix + "*" || (pattern == prefix && Last(pattern) != '*'))
  }

  ghost predicate Grants(scope: AccessScope, existing: set<string>, ns: string) {
    if scope.kind == "cluster" then ns == "" else exists pattern :: pattern in scope.namespaces && Denotes(pattern, existing, ns)
  }

  /** The association `p` of an entry with this principal and user stands for the binding `b`. */
  ghost predicate Implies(h: Hash, principal: string, username: string, p: AssociatedPolicy, existing: set<string>, b: RBACBinding) {
    && Grants(p.scope, existing, b.ns)
    && b.subject == username
    && exists name :: Defines(p.arn, b.role, name) && b.name == "eksuvia-" + name + "-" + h(principal + "|" + p.arn + "|" + b.ns)
  }

  lemma DenotesIs(pattern: string, existing: set<string>, ns: string)
    ensures Denotes(pattern, existing, ns) <==> ns in ExpandOne(pattern, existing)
  {
    if '*' in pattern {
      var prefix := TrimStar(pattern);
      assert pattern == prefix + "*" || (pattern == prefix && Last(pattern) != '*');
      forall other | pattern == other + "*" ensures other == prefix {
        assert Last(pattern) == '*';
      }
    }
  }

  lemma GrantsIs(scope: AccessScope, existing: set<string>, ns: string)
    ensures Grants(scope, existing, ns) <==> ns in Granted(scope, existing)
  {
    forall pattern ensures Denotes(pattern, existing, ns) <==> ns in ExpandOne(pattern, existing) {
      DenotesIs(pattern, existing, ns);
    }
  }

  lemma ClusterAdminText()
    ensures CLUSTER_ADMIN_POLICY == "arn:aws:eks::aws:cluster-access-policy/AmazonEKSClusterAdminPolicy"
  {
  }

  lemma ClusterAdminLower()
    ensures Lower(CLUSTER_ADMIN_NAME) == "amazoneksclusteradminpolicy"
  {
  }

  lemma AdminText()
    ensures ADMIN_POLICY == "arn:aws:eks::aws:cluster-access-policy/AmazonEKSAdminPolicy"
  {
  }

  lemma AdminLower()
    ensures Lower(ADMIN_NAME) == "amazoneksadminpolicy"
  {
  }

  lemma EditText()
    ensures EDIT_POLICY == "arn:aws:eks::aws:cluster-access-policy/AmazonEKSEditPolicy"
  {
  }

  lemma EditLower()
    ensures Lower(EDIT_NAME) == "amazonekseditpolicy"
  {
  }

  lemma ViewText()
    ensures VIEW_POLICY == "arn:aws:eks::aws:cluster-access-policy/AmazonEKSViewPolicy"
  {
  }

  lemma ViewLower()
    ensures Lower(VIEW_NAME) == "amazoneksviewpolicy"
  {
  }

  lemma AdminViewText()
    ensures ADMIN_VIEW_POLICY == "arn:aws:eks::aws:cluster-access-policy/AmazonEKSAdminViewPolicy"
  {
  }

  lemma AdminViewLower()
    ensures Lower(ADMIN_VIEW_NAME) == "amazoneksadminviewpolicy"
  {
  }

  /** Exactly the five texts are known policies, with the roles written beside them. */
  lemma DefinesIs(policy: string, role: string)
    ensures RoleOf(policy) == Some(role) <==> exists name :: Defines(policy, role, name)
    ensures forall name :: Defines(policy, role, name) ==> name == Lower(PolicyName(policy))
  {
    ClusterAdminText();
    ClusterAdminLower();
    AdminText();
    AdminLower();
    EditText();
    EditLower();
    ViewText();
    ViewLower();
    AdminViewText();
    AdminViewLower();
    if IsKnownAccessPolicy(policy) {
      KnownPolicy(policy);
      assert RoleOf(policy) == Some(role) ==> Defines(policy, role, Lower(KnownName(policy)));
    }
  }

  lemma KnownIsDefined(policy: string)
    ensures IsKnownAccessPolicy(policy) <==> exists role, name :: Defines(policy, role, name)
  {
    if IsKnownAccessPolicy(policy) {
      DefinesIs(policy, BoundRole(policy));
    }
    if role, name :| Defines(policy, role, name) {
      DefinesIs(policy, role);
    }
  }

  lemma ImpliesIs(h: Hash, principal: string, username: string, p: AssociatedPolicy, existing: set<string>, b: RBACBinding)
    ensures Implies(h, principal, username, p, existing, b) <==> b in PolicyBindings(h, principal, username, p, existing)
  {
    GrantsIs(p.scope, existing, b.ns);
    DefinesIs(p.arn, b.role);
    if b in PolicyBindings(h, principal, username, p, existing) {
      var name :| Defines(p.arn, b.role, name);
    }
    if Implies(h, principal, username, p, existing, b) {
      assert b == MakeBinding(h, principal, username, p.arn, b.ns);
    }
  }

  lemma WantedIsImplied(h: Hash, principal: string, username: string, policies: seq<AssociatedPolicy>, existing: set<string>)
    ensures forall b :: b in Wanted(h, principal, username, policies, existing) <==>
              exists p :: p in policies && Implies(h, principal, username, p, existing, b)
  {
    forall p, b ensures Implies(h, principal, username, p, existing, b) <==> b in PolicyBindings(h, principal, username, p, existing) {
      ImpliesIs(h, principal, username, p, existing, b);
    }
  }

  lemma RolesDiffer()
    ensures "cluster-admin" !in ["admin", "edit", "view"]
  {
    assert |"cluster-admin"| == 13 && |"admin"| == 5 && |"edit"| == 4 && |"view"| == 4;
  }

  lemma OnlyClusterAdmin(policy: string, role: string, name: string)
    requires Defines(policy, role, name) && role !in ["admin", "edit", "view"]
    ensures policy == "arn:aws:eks::aws:cluster-access-policy/AmazonEKSClusterAdminPolicy"
  {
  }

  lemma ClusterAdminAlone(policy: string)
    ensures policy == "arn:aws:eks::aws:cluster-access-policy/AmazonEKSClusterAdminPolicy" <==> exists name :: Defines(policy, "cluster-admin", name)
  {
    RolesDiffer();
    if name :| Defines(policy, "cluster-admin", name) {
      OnlyClusterAdmin(policy, "cluster-admin", name);
    }
    assert Defines("arn:aws:eks::aws:cluster-access-policy/AmazonEKSClusterAdminPolicy", "cluster-admin", "amazoneksclusteradminpolicy");
  }

  lemma BindingWithRole(h: Hash, principal: string, username: string, p: AssociatedPolicy, existing: set<string>, ns: string, role: string)
    requires Grants(p.scope, existing, ns) && exists name :: Defines(p.arn, role, name)
    ensures exists b: RBACBinding :: b.role == role && Implies(h, principal, username, p, existing, b)
  {
    var name :| Defines(p.arn, role, name);
    var b := RBACBinding("eksuvia-" + name + "-" + h(principal + "|" + p.arn + "|" + ns), ns, role, username);
    assert Implies(h, principal, username, p, existing, b);
  }

  /** Only the ClusterAdmin policy, with a scope that grants anything, makes its user cluster-admin. */
  lemma ClusterAdminIff(h: Hash, principal: string, username: string, policies: seq<AssociatedPolicy>, existing: set<string>)
    ensures (exists b :: b in Wanted(h, principal, username, policies, existing) && b.role == "cluster-admin")
       <==> (exists p :: p in policies && p.arn == "arn:aws:eks::aws:cluster-access-policy/AmazonEKSClusterAdminPolicy"
               && exists ns :: Grants(p.scope, existing, ns))
  {
    WantedIsImplied(h, principal, username, policies, existing);
    forall p: AssociatedPolicy
      ensures p.arn == "arn:aws:eks::aws:cluster-access-policy/AmazonEKSClusterAdminPolicy" <==> exists name :: Defines(p.arn, "cluster-admin", name)
    {
      ClusterAdminAlone(p.arn);
    }
    forall p: AssociatedPolicy, ns | Grants(p.scope, existing, ns) && exists name :: Defines(p.arn, "cluster-admin", name)
      ensures exists b: RBACBinding :: b.role == "cluster-admin" && Implies(h, principal, username, p, existing, b)
    {
      BindingWithRole(h, principal, username, p, existing, ns, "cluster-admin");
    }
  }

  lemma ListMeans(h: Hash, principal: string, username: string, policies: seq<AssociatedPolicy>, existing: set<string>, out: seq<RBACBinding>)
    requires Elements(out) == Wanted(h, principal, username, policies, existing)
    ensures forall b :: b in out <==> exists p :: p in policies && Implies(h, principal, username, p, existing, b)
    ensures (exists b :: b in out && b.role == "cluster-admin")
       <==> (exists p :: p in policies && p.arn == "arn:aws:eks::aws:cluster-access-policy/AmazonEKSClusterAdminPolicy"
               && exists ns :: Grants(p.scope, existing, ns))
  {
    assert forall b :: b in out <==> b in Elements(out);
    WantedIsImplied(h, principal, username, policies, existing);
    ClusterAdminIff(h, principal, username, policies, existing);
  }

  /* ---------- What the list depends on ---------- */

  /** What an association means: the order and multiplicity of its namespaces are forgotten. */
  ghost function Meaning(policies: seq<AssociatedPolicy>): set<(string, string, set<string>)> {
    set p | p in policies :: (p.arn, p.scope.kind, Elements(p.scope.namespaces))
  }

  lemma WantedSubset(h: Hash, principal: string, username: string, xs: seq<AssociatedPolicy>, ys: seq<AssociatedPolicy>, existing: set<string>)
    requires Meaning(xs) <= Meaning(ys)
    ensures Wanted(h, principal, username, xs, existing) <= Wanted(h, principal, username, ys, existing)
  {
    forall b | b in Wanted(h, principal, username, xs, existing)
      ensures b in Wanted(h, principal, username, ys, existing)
    {
      var p :| p in xs && b in PolicyBindings(h, principal, username, p, existing);
      assert (p.arn, p.scope.kind, Elements(p.scope.namespaces)) in Meaning(xs);
      var q :| q in ys && (q.arn, q.scope.kind, Elements(q.scope.namespaces)) == (p.arn, p.scope.kind, Elements(p.scope.namespaces));
      forall n | n in ExpandSet(p.scope.namespaces, existing) ensures n in ExpandSet(q.scope.namespaces, existing) {
        var pat :| pat in p.scope.namespaces && n in ExpandOne(pat, existing);
        assert pat in Elements(p.scope.namespaces);
      }
      assert b in PolicyBindings(h, principal, username, q, existing);
    }
  }

  /** `BindingsFor` depends only on the set of policies, the sets of namespaces in their scopes and
      the set of existing namespaces: reordering any of them gives the same list. */
  lemma BindingsOrderIndependent(h: Hash, principal: string, username: string,
                                 xs: seq<AssociatedPolicy>, ys: seq<AssociatedPolicy>, ex: seq<string>, ey: seq<string>,
                                 outX: seq<RBACBinding>, outY: seq<RBACBinding>)
    requires Meaning(xs) == Meaning(ys) && Elements(ex) == Elements(ey)
    requires Elements(outX) == Wanted(h, principal, username, xs, Elements(ex)) && StrictlySorted(outX, BindingLess)
    requires Elements(outY) == Wanted(h, principal, username, ys, Elements(ey)) && StrictlySorted(outY, BindingLess)
    ensures outX == outY
  {
    WantedSubset(h, principal, username, xs, ys, Elements(ex));
    WantedSubset(h, principal, username, ys, xs, Elements(ex));
    BindingOrder();
    forall b ensures b in outX <==> b in outY {
      assert b in outX <==> b in Elements(outX);
      assert b in outY <==> b in Elements(outY);
    }
    SortedUnique(outX, outY, BindingLess);
  }

  /** A policy grants cluster-wide exactly when it is known and its scope is "cluster" or lists the
      empty namespace, which the handlers do not reject. */
  lemma ClusterWideIff(h: Hash, principal: string, username: string, p: AssociatedPolicy, existing: set<string>)
    requires "" !in existing
    ensures (exists b :: b in PolicyBindings(h, principal, username, p, existing) && b.ClusterScoped())
       <==> IsKnownAccessPolicy(p.arn) && (p.scope.kind == CLUSTER_SCOPE || "" in p.scope.namespaces)
  {
    if IsKnownAccessPolicy(p.arn) {
      if p.scope.kind == CLUSTER_SCOPE || "" in p.scope.namespaces {
        assert p.scope.kind != CLUSTER_SCOPE ==> "" in ExpandOne("", existing);
        assert "" in Granted(p.scope, existing);
        assert MakeBinding(h, principal, username, p.arn, "") in PolicyBindings(h, principal, username, p, existing);
      }
    }
  }
}
