# eksuvia in Dafny

eksuvia emulates the Amazon EKS control plane: it keeps clusters, access entries and node groups in
a registry, turns access entries into RBAC bindings and node groups into node labels on a real
Kubernetes API server, and authenticates users by asking STS about a presigned URL. This project
models the parts of it that hold state and decisions, and proves what they keep.

| module | what it models |
|---|---|
| `Text` | strings: split, join, sort, ASCII case folding |
| `Arn` | ARNs: parsing, printing, canonical form, path stripping |
| `Model`, `Resolver` | access entries and aws-auth; who a caller is in Kubernetes |
| `Rbac` | the bindings an access entry implies, and their names |
| `Kube` | an abstract API server with namespaces, immutable roles and failing calls |
| `Access`, `AccessRuns`, `AccessServer` | the access-entry handlers: as steps, over runs, and as code on mutable records that is proved to perform the steps |
| `AccessSteps`, `AccessTurns`, `AccessSolo` | the access-entry handlers when requests overlap, cut at every access of the store and every API call; when requests for one principal take turns; when a request runs alone |
| `NodePool`, `NodePoolSteps` | the node pool: handlers run one at a time, and cut at every API call |
| `Store`, `Lifecycle` | the registry; creation, provisioning and deletion in every interleaving, with the issuer index |
| `AwsAuthCache`, `Webhook` | the aws-auth cache under concurrent reviews; the token review |
| `Router`, `Token` | routing of percent-encoded paths and the route table; the structural token checks |

The code that works step by step is modelled by classes and methods (`AccessServer.Server`,
`Kube.ApiServer`, `NodePool.Pool`, `Store.Store`, `Lifecycle.Server`, `AwsAuthCache.Cache`,
`Router.Router`, `Token.Verifier`), each proved against a specification on values; the lemmas about
whole runs are about that specification.

Assumptions that a lemma needs are in its `requires`: that the truncated SHA-1 in binding names
separates different keys (`Rbac.Injective`), that issuer IDs separate names
(`Lifecycle.InjectiveIssuer`), that user labels leave the pool's two labels alone
(`NodePool.Harmless`), that a kubeconfig that parses is not empty (`Lifecycle.Usable`), and, for
exactness, that a new cluster has no foreign object at a generated name (`AccessRuns.NoSquatters`).

Tables and constants that everything else rests on (policies and roles, labels, modes, accepted ARNs,
token parameters, routes) are stated a second time in plain text and proved to be what the code uses:
`Rbac.Implies`, `NodePool.Labelled`, `Resolver.PerMode`, `Arn.CanonicalizeAccepts`,
`Token.PassesOtherwise`, `Router.Documented`, and the lemmas of `Access` whose names end in `Means`.

## What the code does not keep

Where a property one might expect is false of the code, the model keeps the code and proves when
the property holds.

- Re-associating a policy with a narrower scope leaves the old bindings in the cluster
  (`internal/api/access.go:205-210`): `AccessRuns.AssociateOrphansExactly`, `AccessRuns.NarrowingRun`.
- Overlapping requests for one principal can leave a grant behind: a delete that overtakes an associate
  (`internal/api/access.go:198-227`, `AccessSteps.DeletedEntryKeepsItsGrant`), and an associate inside a
  disassociate (`internal/api/access.go:270-293`, `AccessSteps.DisassociatedPolicyKeepsItsGrant`). Not
  when requests for one principal take turns: `AccessTurns.RunsInTurnLeaveNoOrphans`.
- The creator's entry is stored under the configured ARN, not its canonical form
  (`internal/api/cluster.go:264-266`), so two entries can share a principal: `AccessRuns.SharedPrincipalIff`.
- A namespace scope that lists the empty namespace grants cluster-wide: `Rbac.ClusterWideIff`.
- `deleteBindingsFor` ignores a failed namespace list and can then report success with bindings left
  (`internal/api/access.go:391-394`): `AccessServer.DeleteBindingsFor`, `AccessRuns.IgnoredListingRun`;
  exactly when a wildcard grants a namespace: `AccessServer.UnlistedIsCompleteIff`.
- Templates in a username are expanded for authentication but not in the bindings:
  `AccessRuns.TemplatedUserDisagrees`.
- Two entry keys that differ only in case make `lookupAccessEntry` depend on map order:
  `Resolver.OrderIndependentIff`.
- Through an ARN with a path, `arnMatches` is not transitive for strings that do not parse; it is
  through one without: `Resolver.MatchesTransitiveThroughIff`.
- Overlapping allocations can share a node, and deleting a group during its allocation can strand
  one: `NodePoolSteps.OverlapSharesANode`, `NodePoolSteps.DeleteDuringAllocationStrandsANode`. Not when
  requests do not overlap and calls succeed: `NodePoolSteps.RunsApartConserve`.
- User labels can overwrite the nodegroup label or add the control-plane label, and then nodes are
  lost to the pool: `NodePool.DeleteRestoresIff`.
- Deleting a cluster while it is CREATING lets the status of its successor change twice:
  `Lifecycle.ImpatientStatusChangesTwice`.
- A deletion that overlaps the re-creation of its name can remove the new cluster from the issuer
  index: `Lifecycle.OverlapLosesTheIndex`.
- aws-auth can be staler than the five seconds of its lifetime, by the duration of the read, because
  the lifetime starts after the read: `AwsAuthCache.StalenessIncludesTheRead`.
- Two spellings of one query key can make the token's verdict depend on map order, exactly when one
  of four parameters has a spelling that passes its check and one that does not:
  `Token.VerdictDeterminedIff`.
- A negative `desiredSize` crashes the process: `NodePool.Pool.AllocateNodegroup`.
- An empty parameter at the end of a path is lost to `splitPath`: `Router.EmptyLastSegmentLost`.
- `ARCHITECTURE.md:58-64` reconciles the creator's entry before the cluster is ACTIVE; the code
  makes it ACTIVE first (`internal/api/cluster.go:225-240`). The model follows the code.

## Model

| member | source | states |
|---|---|---|
| AccessRuns.RunSafe | internal/api/access.go:121-311 | In every run of entry requests, namespace changes and bootstraps from the empty cluster, API failures included: the invariant holds, and every generated binding that no current entry implies comes from the leak of one of the run's own steps. |
| AccessRuns.StepOrphans | internal/api/access.go:198-227 | One step adds no orphaned grant beyond its leak: the places an overwritten scope no longer covers and, if its API calls failed, what it failed to remove or replace. |
| AccessRuns.AssociateOrphansExactly | internal/api/access.go:205-210 | With all calls successful and no orphans before, re-associating a policy orphans exactly the live places of the old entry that the new one does not cover. |
| AccessRuns.NarrowingRun | internal/api/access.go:205-210 | A run that ends with an orphan: the creator's cluster-wide grant outlives the re-association of its policy with one namespace. |
| AccessRuns.IgnoredListingRun | internal/api/access.go:391-394 | A run in which listing namespaces fails while an entry is deleted: what can be derived without the list is deleted, and a live grant of the deleted entry is left. |
| AccessRuns.CarefulRunsLeaveNoOrphans | internal/api/access.go:121-311 | No grant outlives its policy in any run in which deletions of bindings succeed and no scope is narrowed; applying bindings may fail, unless it has to give them to another user. |
| AccessRuns.CarefulNoLeak | internal/api/access.go:198-217 | A step like that, which can be checked beforehand, leaks nothing. |
| AccessRuns.NewPolicyCovers | internal/api/access.go:203-213 | Associating a policy that the entry does not have yet narrows nothing, wildcard scopes of the other policies included. |
| AccessRuns.CarefulRunExact | internal/api/access.go:198-227 | After every run of careful steps in a cluster that comes up without foreign objects at generated names, a careful associate or disassociate returns with the principal's bindings equal to those derived from the new entry, contents included, and with every other entry and object unchanged. |
| AccessRuns.StepExact | internal/api/access.go:198-227 | One successful associate or disassociate leaves exactly the new entry's bindings, if before it the principal's were among those the step removes or re-applies; `AccessRuns.CarefulRunExact` derives this for runs. |
| AccessRuns.LiveIsDerived | internal/api/access.go:355-405 | Without orphans and foreign objects, whatever stands at a name of an entry's principal is one of the entry's own bindings. |
| AccessRuns.StepFrame | internal/api/access.go:355-405 | A step changes no object outside the places of the principal it reconciles, even if API calls fail. |
| AccessRuns.EntriesDoNotInterfere | internal/api/access.go:319-405 | With a hash that separates keys and a canonical creator, one entry's step changes neither another entry nor any of its bindings. |
| AccessRuns.PrincipalsDistinct | internal/api/access.go:29-91 | Distinct entry keys have distinct principals, because the key is a function of the principal, if the configured creator is canonical. |
| AccessRuns.SharedPrincipalIff | internal/api/cluster.go:247-270 | Some run reaches a state in which two entries share a principal, and with it their binding names, if and only if the configured creator has a canonical form other than itself. |
| AccessRuns.AuthenticatedUserIsBound | internal/identity/resolver.go:116-182 | After a successful associate the username that the resolver gives the caller with the entry's key is the subject of a live binding to the policy's role in every granted scope, for a username without templates. |
| AccessRuns.TemplatedUserDisagrees | internal/identity/resolver.go:162-182 | Every caller the token verifier can name with an entry's key is given the username that the bindings name if and only if that username contains no template variable (or the key is no canonical ARN). |
| AccessRuns.ReconcileSource | internal/api/access.go:355-405 | An object after a reconcile is one of the new entry's bindings or is unchanged, and unchanged ones are not among those a successful step removed. |
| Access.StepKeepsInv | internal/api/access.go:29-311 | Every step keeps, whatever fails: policies known and listed once per entry, and every generated object bound to the role that its name stands for. |
| Access.TargetKeepsPolicies | internal/api/access.go:175-217 | The policy lists that requests produce stay duplicate-free and known. |
| Access.StepKeepsKeys | internal/api/access.go:29-91 | Every step keeps each entry filed under its principal's canonical ARN, or under the creator's ARN as configured. |
| Access.UpsertedAt | internal/api/access.go:203-212 | Upserting a policy gives it the new scope and changes no other association, not even the order. |
| Access.WithoutAt | internal/api/access.go:286-292 | Filtering leaves out exactly the named policy and keeps the rest in order. |
| Access.CreateMeans | internal/api/access.go:29-91 | A create stores an entry exactly for a principal whose canonical ARN is not a key yet: under that key, with the principal and groups as given, the username or else the principal, and no policies. Nothing else changes. |
| Access.AssociateMeans | internal/api/access.go:159-217 | For an entry found under the canonical ARN or else the ARN as given: exactly one of the five policies with anything but an empty namespace scope is accepted; then the entry lists that policy with the given scope, or "cluster" if none is given, its other associations as before, and no other entry or field changes. |
| Access.DisassociateMeans | internal/api/access.go:258-292 | The entry found then lists the same associations without that policy; no other entry or field changes. |
| Access.DeleteMeans | internal/api/access.go:121-152 | The entry found is removed and no other; a delete, associate or disassociate that finds none changes nothing. |
| Access.BootstrapMeans | internal/api/cluster.go:247-270 | Afterwards the creator's entry lists the ClusterAdmin policy with scope "cluster" and nothing else, and the other entries are as before. |
| Access.DerivedIsImplied | internal/api/access.go:355-383 | The bindings derived for an entry are those its associations imply in plain text, for its username or else its principal, where patterns see the namespaces only if some scope has type "namespace". |
| AccessServer.Server.HandleCreate | internal/api/access.go:29-91 | The handler performs the create step on the abstract state, answers OK exactly when it stored the entry, and reports a conflict exactly for a canonical key in use. |
| AccessServer.Server.HandleDelete | internal/api/access.go:121-152 | The handler performs the delete step: entry removed first, then the bindings derived from the record still held; nothing else changes. |
| AccessServer.Server.HandleAssociate | internal/api/access.go:159-234 | The handler performs the associate step on the record that it looked up, whose identity the update keeps; it refuses unknown policies and empty namespace scopes, and succeeds completely on a reliable API server whose namespaces exist. |
| AccessServer.Server.HandleDisassociate | internal/api/access.go:258-311 | The handler performs the disassociate step: revoke, filter in place, re-apply. |
| AccessServer.Server.BootstrapCreatorAccess | internal/api/cluster.go:247-270 | Bootstrapping stores the creator's entry under the configured ARN as it stands and reconciles it; the cluster-wide grant needs no namespace. |
| AccessServer.FilterInPlace | internal/api/access.go:286-292 | The filter that reuses the slice's own storage computes the filtered list and leaves the tail of the storage alone. |
| AccessServer.AccessEntry.Upsert | internal/api/access.go:203-213 | The scan with its early return computes the upserted list, in place or by appending. |
| AccessServer.AccessEntry.Remove | internal/api/access.go:286-292 | The record afterwards holds the filtered list and is otherwise unchanged. |
| AccessServer.ApplyBindings | internal/api/access.go:370-381 | Applying a list of bindings installs all of them and touches nothing else, or stops at an error with a part of them; on roles that fit, no binding is ever deleted in between. |
| AccessServer.ReconcileAccessEntry | internal/api/access.go:355-383 | Reconciling an entry applies the bindings derived from it in the namespaces listed, and never meets an object with another role. |
| AccessServer.DeleteBindings | internal/api/access.go:395-404 | The deletes remove all of the listed objects, absent ones included, or stop at a transport failure with a part removed; nothing else changes. |
| AccessServer.DeleteBindingsFor | internal/api/access.go:386-405 | The call succeeds if and only if no delete fails in transport: a failed namespace list is ignored. On success the objects deleted are those of the bindings derived from the entry, or of those derivable without the list. |
| AccessServer.UnlistedIsCompleteIff | internal/api/access.go:391-395 | What is derivable without the list is everything if and only if no known, namespaced association grants an existing namespace by a wildcard alone. |
| AccessServer.NeedsNamespaceList | internal/api/access.go:407-414 | Namespaces are listed exactly when some association has a namespace scope. |
| AccessServer.Monotone | internal/api/access.go:391-394 | Bindings derived without a namespace list are among those derived with it, so an ignored error only ever deletes too little. |
| AccessSteps.EveryGrantNamesAnEntry | internal/api/access.go:29-405 | In every interleaving of overlapping requests and namespace changes, API failures included, each generated object binds the user of some stored entry, at a name of its principal, to the role of the policy in that name. |
| AccessSteps.StepOrphansOnly | internal/api/access.go:121-311 | In every interleaving, a step orphans a grant only by writing a binding that no current entry implies, or by taking it out of its entry in the store. |
| AccessSteps.OrderlyRunsGrantInTime | internal/api/access.go:198-227 | If no request rewrites, replaces or removes a record while another still has bindings of it to apply, then in every run no call writes a binding that no current entry implies, so that only what was taken out of an entry can be an orphan. This alone does not rule orphans out: see the two examples and `AccessTurns`. |
| AccessSteps.NextSteady | internal/api/access.go:159-311 | A step that is orderly in this sense keeps: every request that is granting is at a record the store holds, and every binding it has left is implied by that record wherever the binding's namespace exists. |
| AccessSteps.SteadyIsNotLate | internal/api/access.go:370-381 | In such a state no call writes a binding that no current entry implies. |
| AccessSteps.DerivedFits | internal/api/access.go:361-371 | A binding derived from an earlier list of namespaces is still implied later, as long as its namespace exists and the policies are the same. |
| AccessSteps.DeletedEntryKeepsItsGrant | internal/api/access.go:198-227 | A grant can outlive its entry although every call succeeds: a delete runs between an associate's update of the store and its API calls. |
| AccessSteps.DisassociatedPolicyKeepsItsGrant | internal/api/access.go:270-293 | A grant can outlive its policy although every call succeeds, no scope is narrowed and no request disturbs a record that another is granting from: an associate of the same policy runs between the deletions of a disassociate and its update of the store. |
| AccessTurns.RunsInTurnLeaveNoOrphans | internal/api/access.go:121-405 | No grant outlives its policy when no request arrives for a principal while another for it is unfinished, the calls that delete bindings succeed and no scope is narrowed: whenever no request is deleting bindings, every generated object is implied by a current entry. Requests for other principals and changes of namespaces interleave in any way, and all other calls may fail. |
| AccessTurns.RunInTurnKeeps | internal/api/access.go:121-405 | Throughout such a run every generated object is implied by a current entry or still going to be deleted by a request. |
| AccessTurns.TickOwes | internal/api/access.go:198-293 | Each step keeps an account: a binding that accounted for an object which is still there goes on to, whether its entry is updated, dropped, or having its bindings deleted. |
| AccessTurns.TurnsAreOrderly | internal/api/access.go:159-311 | Requests that take turns never disturb a record that another is granting from. |
| AccessTurns.NextTidy | internal/api/access.go:319-335 | Each step keeps: a request is at the record that its principal's key leads to, or at one no key leads to whose bindings it deletes, and no two requests are for one principal. |
| AccessSolo.SoloCreateIsStep | internal/api/access.go:29-91 | A create request that runs alone, and whose calls succeed, is one clean step of the sequential model on the store's entries. |
| AccessSolo.SoloDeleteIsStep | internal/api/access.go:121-152 | So is a delete request. |
| AccessSolo.SoloAssociateIsStep | internal/api/access.go:159-234 | So is an associate request; its reconcile is complete if the namespaces of the entry's bindings exist. |
| AccessSolo.SoloDisassociateIsStep | internal/api/access.go:258-311 | So is a disassociate request; its deletions are complete, and its reconcile if the namespaces exist. |
| AccessSolo.GrantAdvances | internal/kube/client.go:348-364 | One call of createOrReplace at a time, in whatever order the bindings come, and through PUT, DELETE and a second POST: exactly the bindings dealt with so far are in place, and nothing else has changed. |
| AccessSolo.RunWellKept | internal/api/access.go:198-217 | In every interleaving no record is under two keys, no policy is twice in a record, and no object is without its namespace. |
| Rbac.BindingsFor | internal/identity/rbac.go:84-119 | The list is sorted by namespace and then by name, with each binding once if no policy is listed twice. A binding is in it if and only if some association implies it in plain text: one of five policy ARNs with the role written beside it, a scope that grants the namespace, the user as subject, and the generated name. It holds a binding to "cluster-admin" if and only if the ClusterAdmin policy is listed with a scope that grants something. |
| Rbac.DefinesIs | internal/identity/rbac.go:19-31 | Exactly five policy ARNs, written out as text, have a role, and it is the one written beside each: view for View and AdminView, edit for Edit, admin for Admin, cluster-admin for ClusterAdmin. |
| Rbac.ClusterAdminIff | internal/identity/rbac.go:84-119 | An entry's associations give some binding to "cluster-admin" if and only if one of them is the ClusterAdmin policy with a scope that grants some namespace or the cluster. |
| Rbac.DenotesIs | internal/identity/rbac.go:124-146 | A pattern without a star names one namespace, whether it exists or not; a pattern with one names the existing namespaces that begin with the pattern, less one star at its end. |
| Text.LessMeans | internal/identity/rbac.go:112-145 | The order of the sorted lists: a string comes before another if it is the beginning of it or smaller at the first character where they differ. |
| Text.LowerMeans | internal/identity/resolver.go:150-160 | Case folding turns the 26 upper-case letters into the lower-case ones in order and leaves every other character alone. |
| Rbac.BindingsOrderIndependent | internal/identity/rbac.go:84-119 | The list depends only on the set of policies, the sets of namespaces in their scopes and the set of existing namespaces, not on any order. |
| Rbac.ExpandNamespaces | internal/identity/rbac.go:124-146 | The result is the strictly sorted list of the namespaces named literally and of the existing ones that a pattern matches. |
| Rbac.ClusterWideIff | internal/identity/rbac.go:93-110 | An association yields a cluster-wide binding if and only if the policy is known and its scope is "cluster" or grants the empty namespace, which the handlers do not reject. |
| Rbac.PathsDistinct | internal/identity/rbac.go:154-161 | With one association per policy, two of an entry's bindings with the same place are the same binding, whatever the hash. |
| Rbac.NameDeterminesPolicy | internal/identity/rbac.go:154-161 | In one namespace the names of two different known policies differ whatever the hash and the principals, and equal names come from equal hashes. |
| Rbac.KeyInjectiveInNamespace | internal/identity/rbac.go:155 | Within one namespace the hashed text determines principal and policy, known policies having no bar. |
| Rbac.KeyInjective | internal/identity/rbac.go:155 | For namespaces without a bar the hashed text determines principal, policy and namespace. |
| Rbac.NameInjective | internal/identity/rbac.go:154-161 | With a hash that separates keys, a generated name and its namespace determine principal and policy. |
| Rbac.KnownPolicy | internal/identity/rbac.go:19-54 | A policy with a role is its prefix and one of five plain names, so its last path segment is that name and it contains no bar. |
| Kube.ApiServer.CreateOrReplace | internal/kube/client.go:348-364 | On success exactly the wanted object is at its path; nothing else ever changes; the old object is deleted in between only if its role differs or a call failed in transport. |
| Kube.AsStatusError | internal/kube/client.go:158-171 | The loop over wrapped errors finds the status code at the bottom of the chain, if there is one. |
| Kube.HasStatus | internal/kube/client.go:141-156 | IsNotFound and IsAlreadyExists hold exactly of errors that wrap that status. |
| Kube.ApiServer.ListNamespaceNames | internal/kube/client.go:251-263 | The list names every namespace, and each once. |
| Resolver.Resolve | internal/identity/resolver.go:116-130 | The answer is that of the declarative rule, and, mode by mode as text: in "API" and "API_AND_CONFIG_MAP" a caller with an entry key (the exact one first, else one equal up to case) is answered from that entry; in "CONFIG_MAP", and in "API_AND_CONFIG_MAP" without such a key, from the first matching role or else the first matching user; otherwise nobody. Username, groups and user ID are given field by field. |
| Resolver.GivesIsPerMode | internal/identity/resolver.go:101-182 | The declarative rule is the table of the three authentication modes, both ways, for every resolver, caller and answer. |
| Resolver.ModeIgnores | internal/identity/resolver.go:101-130 | In "CONFIG_MAP" replacing the entries, and in "API" replacing aws-auth, changes no answer. |
| Resolver.OrderIndependentIff | internal/identity/resolver.go:143-160 | The answer is the same for every iteration order of the entry map if and only if the exact key exists or all entries equal to it up to case give the caller the same identity (where entries are enabled). |
| Resolver.ResolveDeterministic | internal/identity/resolver.go:116-130 | When no two keys are equal up to case the rule admits one answer only. |
| Resolver.EntryShadowsConfigMap | internal/identity/resolver.go:116-130 | A principal with an entry is resolved as if aws-auth had any other content: nothing is merged; and each mode lets only its own mechanisms answer. |
| Resolver.LookupAccessEntry | internal/identity/resolver.go:143-160 | The exact key wins; otherwise some entry whose key is equal up to case, if there is one. |
| Resolver.FromAwsAuthMap | internal/identity/resolver.go:184-208 | The first matching role, else the first matching user, else nobody. |
| Resolver.MatchesIsStrippedEquality | internal/identity/resolver.go:213-221 | On accepted ARNs matching is equality, up to case, of the path-stripped forms. |
| Resolver.MatchesIsEquivalence | internal/identity/resolver.go:213-221 | On accepted ARNs matching is reflexive, symmetric and transitive. |
| Resolver.MatchesTransitiveThroughIff | internal/identity/resolver.go:213-221 | Matching is transitive through an accepted ARN, for any strings on either side, if and only if that ARN has no path. |
| Resolver.MatchesNotTransitiveOutsideParse | internal/identity/resolver.go:213-221 | For every ARN with a path, a string that is not accepted through which this fails. |
| Resolver.MatchesOutsideParse | internal/identity/resolver.go:213-221 | A string that is no ARN matches exactly what it, or what the stripped form, is equal to up to case; the empty string matches nothing. |
| Resolver.TemplateFreeIff | internal/identity/resolver.go:230-241 | Expansion leaves a string alone for every possible caller if and only if it contains none of the four variables. |
| Resolver.ExpandLiteral | internal/identity/resolver.go:230-241 | A string without variables is not changed by expansion. |
| Resolver.ExpandMeans | internal/identity/resolver.go:230-241 | The text of each of the four variables is replaced by its value (session, account, session again, nothing), and a character where none of them starts is copied. |
| Resolver.ExpandGroupTemplates | internal/identity/resolver.go:243-252 | Every group is expanded, in order. |
| Arn.StringOfParse | internal/awsarn/arn.go:26-57 | Whatever is accepted prints back to itself, and its parts are well formed. |
| Arn.ParseOfString | internal/awsarn/arn.go:26-57 | An ARN value survives printing and parsing if and only if its partition, service and resource are not empty and nothing but the resource has a colon. |
| Arn.AcceptedStrings | internal/awsarn/arn.go:33-57 | The accepted strings are exactly the printed forms of well-formed ARNs. |
| Arn.CanonicalizeIdempotent | internal/awsarn/arn.go:73-108 | A canonical ARN parses, is its own canonical form and is not an assumed-role ARN. |
| Arn.CanonicalRole | internal/awsarn/arn.go:90-102 | An accepted assumed role has at least three segments, and its canonical ARN parses as the role of the same partition and account whose name is all segments between the first and the last. |
| Arn.CanonicalizeAccepts | internal/awsarn/arn.go:73-108 | A well-formed ARN is accepted if and only if it is an IAM role, user, root or federated user, an STS federated user, or an STS session "assumed-role/<role>/<session>"; every accepted ARN but a session is its own canonical form. |
| Arn.SessionBecomesRole | internal/awsarn/arn.go:86-94 | As text: the session "assumed-role/<role>/<session>" becomes the IAM ARN "role/<role>" of its partition and account, with no region, whatever slashes the role has, and its session name is what follows the last slash. |
| Arn.NoOtherSessionName | internal/awsarn/arn.go:113-123 | Every other well-formed ARN has the empty session name. |
| Arn.SessionRebuilds | internal/awsarn/arn.go:73-123 | Canonical ARN, region and session name rebuild the session ARN, and a session name has no slash. |
| Arn.SessionDetermined | internal/awsarn/arn.go:73-123 | Two sessions with the same canonical ARN, region and session name are the same session. |
| Arn.StripPathIdempotent | internal/awsarn/arn.go:130-141 | Stripping the path twice is stripping it once, on every input. |
| Arn.StripPathParses | internal/awsarn/arn.go:130-141 | The stripped form of an accepted ARN is accepted, and differs from it only in the resource, which keeps its first and last segment. |
| Arn.StripPathKeeps | internal/awsarn/arn.go:130-141 | As text: "<kind>/<path>/<last>" becomes "<kind>/<last>", where kind and last have no slash; with one slash or none nothing changes. |
| Arn.StripPathFolded | internal/awsarn/arn.go:130-141 | Case folding commutes with path stripping on every accepted ARN. |
| NodePoolSteps.PoolSafeInEveryInterleaving | internal/api/nodegroup.go:140-275 | In every interleaving of handlers, allocators and releasers cut at each API call, with failing calls and harmless labels: no control-plane node is ever labelled, every allocator labels at most as many nodes as it was asked for, and a node only ever carries the name of a group whose allocator labelled it. |
| NodePoolSteps.SoloAllocator | internal/api/nodegroup.go:140-248 | An allocator that runs alone, and whose calls succeed, ends in the state of the sequential allocation, in whatever order it reads the nodes. |
| NodePoolSteps.SoloReleaser | internal/api/nodegroup.go:371-405 | A releaser that runs alone, and whose calls succeed, ends in the state of the sequential release, in whatever order it visits the nodes. |
| NodePoolSteps.SoloCreateIsPoolStep | internal/api/nodegroup.go:36-248 | A create handler and its allocator that run alone to the end are one step of the sequential pool. |
| NodePoolSteps.SoloDeleteIsPoolStep | internal/api/nodegroup.go:339-405 | A delete handler and its releaser that run alone to the end are one step of the sequential pool. |
| NodePoolSteps.RunsApartConserve | internal/api/nodegroup.go:36-405 | In every run of steps in which requests arrive only when nothing is at work, calls succeed and labels are harmless: whenever nothing is at work again, the workers are the same, each is free or belongs to a live group, and every status counts its group's nodes. |
| NodePoolSteps.OverlapSharesANode | internal/api/nodegroup.go:140-248 | Two overlapping allocators can both be told they own the only worker: both groups end ACTIVE and one has no node. |
| NodePoolSteps.DeleteDuringAllocationStrandsANode | internal/api/nodegroup.go:339-405 | Deleting a group while its allocator is at work can leave a node that names no live group, after its releaser is done. |
| NodePool.PoolConserved | internal/api/nodegroup.go:36-405 | Over every run of creations and deletions that do not overlap, with successful patches and harmless labels: the workers stay the same, each is free or belongs to a live group, and every status counts its group's nodes. |
| NodePool.CreateEffect | internal/api/nodegroup.go:154-214 | A new group takes exactly min(desired, free) formerly free workers, and every other node and group keeps what it has. |
| NodePool.CreateKeepsPool | internal/api/nodegroup.go:183-248 | Creating a group keeps the pool invariant; in particular its status is ACTIVE, DEGRADED or CREATE_FAILED exactly as it got all, some or none of the nodes it asked for. |
| NodePool.DeleteEffect | internal/api/nodegroup.go:371-405 | Deleting a group frees exactly its nodes and leaves every other node as it is. |
| NodePool.DeleteKeepsPool | internal/api/nodegroup.go:339-405 | Deleting a group keeps the pool invariant and loses no worker. |
| NodePool.DeleteRestoresIff | internal/api/nodegroup.go:183-225 | Creating and then deleting a group restores the former free list if and only if it claimed nothing or its user labels name neither another group nor the control plane. |
| NodePool.HarmfulNodeLost | internal/api/nodegroup.go:203-211 | With user labels that do, every claimed node is lost to the pool even after the group is deleted. |
| NodePool.FaultyAllocationSafe | internal/api/nodegroup.go:154-243 | When any call may fail, an allocation still takes only free workers, at most as many as asked for, and a group that is ACTIVE or DEGRADED has at least one node. |
| NodePool.Pool.CreateNodegroup | internal/api/nodegroup.go:36-129 | Requests are refused in the source's order of checks and change nothing; an accepted one records the group and allocates, with the outcome stated for failing and for reliable API servers; a negative size is accepted. |
| NodePool.Pool.AllocateNodegroup | internal/api/nodegroup.go:140-248 | The allocation labels the first readable free nodes by name, skipping failures, and the status says how many patches were reported as made. A node it takes carries, in plain text, the user's labels, elsewhere the instance type, region, zone (region + "a"), capacity, image and group labels with their own values, and otherwise what it had; every other node is as before. A negative size crashes the process once the nodes are listed. |
| NodePool.StampLabels | internal/api/nodegroup.go:199-220 | What merging the group's labels into a node's leaves under every key: the user's value if the user sets the key, else the written-out default if it is one of eight keys, else what was there. |
| NodePool.OutcomeTakesSome | internal/api/nodegroup.go:140-248 | However calls fail, the nodes that change are formerly free workers, at most as many as desired, and each of them carries the labels as stated. |
| NodePool.Pool.FreeWorkerNodes | internal/api/nodegroup.go:251-275 | The sorted list of the free nodes whose labels could be read; on a reliable API server exactly the nodes with neither the control-plane label nor the nodegroup label, both as text. |
| NodePool.Pool.DeleteNodegroup | internal/api/nodegroup.go:339-368 | The record goes, then the nodes labelled with the group's name lose exactly the labels whose keys begin with "eks.amazonaws.com/": all of these nodes on a reliable API server, some otherwise. Other nodes keep their labels. |
| NodePool.Pool.ReleaseNodegroupNodes | internal/api/nodegroup.go:371-405 | The loop strips exactly the nodes that carry the group's name. |
| Store.Store.Add | internal/store/store.go:81-101 | Adding refuses to overwrite and otherwise adds exactly this cluster. |
| Store.Store.Delete | internal/store/store.go:115-124 | Removes exactly the named cluster and returns it, if it exists. |
| Store.Store.Update | internal/store/store.go:151-160 | Rewrites exactly the named cluster; an unknown name is reported and changes nothing. |
| Store.Store.Names | internal/store/store.go:127-136 | The names, each once, sorted, whatever the iteration order. |
| Lifecycle.LifecycleSafe | internal/api/cluster.go:37-322 | In every interleaving, names reused included: an ACTIVE cluster has a kubeconfig, and its endpoint and CA belong to it; and a lookup by issuer ID, which reads the index and then the store, ends with the signer of a cluster with that issuer ID. |
| Lifecycle.LookupFindsLiveCluster | internal/api/oidc.go:40-50 | When such a lookup finds a signer, the cluster exists at that moment. |
| Lifecycle.LeavesCreatingOnce | internal/api/cluster.go:163-231 | If no cluster is deleted while CREATING, each incarnation leaves CREATING at most once: once ACTIVE or FAILED it keeps that status. |
| Lifecycle.PatientRunsHaveOneCreator | internal/api/cluster.go:147-231 | In such runs each CREATING cluster has exactly one creator still at work and every creator at work has a CREATING cluster, so a finished provisioner leaves none behind in CREATING. |
| Lifecycle.NextOneCreator | internal/api/cluster.go:163-231 | One step keeps this. |
| Lifecycle.ImpatientStatusChangesTwice | internal/api/cluster.go:170-231 | Deleting while CREATING breaks it: the old provisioner fails the new cluster of the same name, whose own provisioner then makes it ACTIVE. |
| Lifecycle.IndexFindsEveryCluster | internal/api/cluster.go:147-151 | When requests for one name do not overlap, every cluster that has been indexed is found through its issuer ID, with its own signer, throughout the run. |
| Lifecycle.OverlapLosesTheIndex | internal/api/cluster.go:303-309 | When they do overlap, a live ACTIVE cluster can be lost to the index for good. |
| Lifecycle.ClusterStep | internal/api/cluster.go:147-309 | A step leaves a cluster alone, creates it, or is the end of a provisioner for its name. |
| Lifecycle.Server.SignerForIssuer | internal/api/oidc.go:40-50 | The signer is that of the cluster the index names, if both exist. |
| Lifecycle.Server.AddCluster | internal/api/cluster.go:147-151 | Creation adds a CREATING cluster with nothing published unless the name is taken. |
| Lifecycle.Server.FinishProvisioning | internal/api/cluster.go:175-231 | One update publishes kubeconfig, endpoint, CA and status together, or marks the cluster FAILED, for whichever cluster has the name by then. |
| Lifecycle.Server.RemoveCluster | internal/api/cluster.go:303-309 | Deletion removes the cluster and yields the issuer ID to drop. |
| AwsAuthCache.BoundedStaleness | internal/api/webhook.go:185-217 | Over every run of edits, reads, failures and concurrent reviews, an answer that is not nil is what the ConfigMap parsed to at a read less than five seconds plus that read's own duration before. |
| AwsAuthCache.StalenessIncludesTheRead | internal/api/webhook.go:185-217 | The five seconds alone are no bound: a slow read keeps an overwritten ConfigMap in use until nearly five seconds after the read has ended. |
| AwsAuthCache.StepInv | internal/api/webhook.go:185-217 | Each step keeps: every cached value and every answer rests on a reading that the ConfigMap really had. |
| AwsAuthCache.Cache.Conclude | internal/api/webhook.go:197-216 | A failed read answers nil and leaves the cache alone; an absent ConfigMap answers nil and is cached; a malformed one answers nil and is not cached; a readable one is the answer and is cached. |
| Webhook.HandleTokenReview | internal/api/webhook.go:90-165 | STS is asked only for a known cluster and a token that passed every structural check, once; otherwise nobody is authenticated and aws-auth is not read; afterwards the resolver decides for the caller STS named. |
| Webhook.CallersArePossible | internal/api/webhook.go:111-132 | The callers that the resolver is asked about are exactly those whose canonical ARN and session name come from an ARN that STS may give. |
| Webhook.DecidedIsNamed | internal/api/webhook.go:112-152 | Whoever is authenticated was named by STS: the user ID is built from the account and user ID that STS gave, and the rest is the answer of the table of modes for that caller. |
| Router.RouteRoundTrip | internal/api/router.go:81-116 | Percent-encoded values put into a good pattern are recovered exactly by splitting and matching, slashes, colons and percent signs included, if and only if the last segment is not empty. |
| Router.EncodedDecodes | internal/api/router.go:94-103 | Decoding any percent-encoding of a value gives the value. |
| Router.PercentEncodeEncodes | internal/api/router.go:94-103 | Encoding every byte that is not unreserved is such an encoding. |
| Router.EscapeMeans | internal/api/router.go:94-103 | A percent sign and two hexadecimal digits, each in lower or upper case, decode to sixteen times the first plus the second. |
| Router.NoEscapeMeans | internal/api/router.go:94-103 | A percent sign that two such digits do not follow makes the segment malformed, and it is then taken as it is; any other character stands for itself. |
| Router.SplitPathOf | internal/api/router.go:110-116 | Slash-free segments with a non-empty first and last one survive being joined into a path and split. |
| Router.EmptyLastSegmentLost | internal/api/router.go:110-116 | An empty last segment does not. |
| Router.Match | internal/api/router.go:81-108 | A match is equal length and equal literals; the parameters are the decoded segments. |
| Router.BindingsAt | internal/api/router.go:89-105 | With distinct names each parameter is bound to its own segment. |
| Router.Router.Serve | internal/api/router.go:50-79 | The first route for path and method; 405 if the path is known under other methods only; otherwise the fallback or 404. |
| Router.DispatchOrderIndependent | internal/api/router.go:50-79 | With unambiguous routes the outcome is the same for every order of registration. |
| Router.TableUnambiguous | internal/api/server.go:67-107 | No two of the registered routes with one method can match one path. |
| Router.RegisterIsDocumented | internal/api/server.go:67-107 | Every handler is registered under the method and the path that the route table gives it, segment by segment as text. |
| Router.TableIsComplete | internal/api/server.go:67-107 | Each of the 26 handlers is in the table, once. |
| Router.Router.RegisterRoutes | internal/api/server.go:67-107 | Registering the patterns as text yields exactly the table, and the fallback. |
| Router.ClientReachesHandler | internal/api/server.go:67-107 | A client that percent-encodes its values into the path of a handler, with its method, reaches this handler with exactly these values. |
| Token.LowerQuery | internal/token/token.go:152-162 | The loop accepts exactly the queries whose parameters are all whitelisted and single-valued, and yields the query with its keys in lower case. |
| Token.OrderIndependentIff | internal/token/token.go:152-162 | The normalised query is the same for every iteration order if and only if keys that differ only in case carry the same value. |
| Token.VerdictDetermined | internal/token/token.go:120-187 | For a query without keys that differ only in case, what some iteration order accepts every order accepts. |
| Token.VerdictDeterminedIff | internal/token/token.go:152-184 | A token that some iteration order accepts is accepted by every order if and only if every spelling of action, x-amz-signedheaders, x-amz-expires and x-amz-date in its query passes that parameter's own check. |
| Token.TwinsMakeItUncertain | internal/token/token.go:152-184 | An accepted token with a second spelling of one of these that fails its check is refused in another order. |
| Token.PassesEarlier | internal/token/token.go:178-184 | A token that passes at one clock reading passes at every earlier one. |
| Token.ExpiresAfterFifteenMinutes | internal/token/token.go:171-184 | A token that passes is good until exactly fifteen minutes after its signing date, whatever its x-amz-expires. |
| Token.Verifier.Check | internal/token/token.go:120-186 | The checks in order: a URL comes out only if some reading of the query passes them all, and does come out if every reading does. |
| Token.PassesByExpires | internal/token/token.go:120-184 | A token that meets every other check, each with its constants written out, passes with x-amz-expires n if and only if n is at most 900; without case twins so does every reading of its query. |
| Token.ExpiresAccepted | internal/token/token.go:171-176 | The decimal text of n is an accepted lifetime if and only if n is at most 900; with a plus sign too; with a minus sign only zero. |
| Token.AtoiReadsDecimal | internal/token/token.go:173 | Reading a number back from its decimal text, printed by repeated division by ten, gives that number, also after a plus sign, and its negative after a minus sign. |
| Token.AtoiDefined | internal/token/token.go:173 | A text is a number if and only if digits, at least one and nothing else, follow its optional sign; leading zeros do not change it. |
| Token.Verifier.Verify | internal/token/token.go:120-187 | STS is asked at most once and only after every structural check; the identity is the caller it names with the canonical form of its ARN. |
| Token.HasSignedClusterIDHeader | internal/token/token.go:191-198 | The scan answers whether one of the signed headers is the cluster ID header, up to case and surrounding space. |
| Token.TrimSpaceTrims | internal/token/token.go:193 | Trimming takes the six ASCII blanks off both ends and nothing else. |

## Left out

- HTTP, JSON, TLS, logging and kubeconfig parsing: requests come decoded, and `Kube.ApiServer` stands for a cluster.
- Cryptography and hashes (SHA-1, RSA, JWT, JWKS): functions with the injectivity stated above; signing and `handleMintIRSAToken` are not modelled.
- base64, `url.Parse` and date parsing: functions that the token checks are given (`Token.Decoders`). Seconds and nanoseconds are integers.
- YAML: `ParseAWSAuth` is a function from the ConfigMap's data to an optional result. `mapAccounts`, which the source parses and never uses, is dropped.
- Router.RouteRoundTrip: takes the escaped path as input; how `net/http` produces it from the request line is not modelled.
- STS itself: a function from the URL and the cluster ID to a caller or nothing. Errors are not told apart.
- Unicode: case folding is ASCII, and strings are sequences of characters ordered by code.
- Token.Verifier.Check: the length limit counts characters, which for ASCII tokens are the source's bytes; `strconv.Atoi` overflow, which fails there, here gives a number that the range check refuses.
- kind provisioning, the Floci proxy, `main.go`, configuration and flags.
- Add-ons: a weaker copy of the node-group lifecycle.
- List and describe handlers, `KnownAccessPolicies` and `Store.All`: they only read. Tags, timestamps and generated ARNs, `accessEntryARN` included, are echoed only.
- AccessServer.Server.HandleCreate: one existing cluster; that an unknown cluster is refused is modelled in `Store` only. Type defaults and echoed fields are left out.
- AccessServer.Server.HandleAssociate: handlers run one at a time here; `AccessSteps` has them overlap.
- AccessSteps.EveryGrantNamesAnEntry: the cluster is ready from the start, a request deals with its bindings in any order (the source in name order), and a handler's unlocked reads of a record are atomic.
- AccessServer.AccessEntry.Upsert: a slice is an array and a count; growing copies into a new array, and Go's spare capacity is not modelled.
- Kube.ApiServer.CreateOrReplace: an API server refuses a changed role with 422; other server-side refusals (quotas, admission) are not modelled, and a transport failure covers a request that failed before or after it took effect.
- Namespaces are created and removed as steps of `Access`, and removing one removes its bindings; the asynchronous Terminating phase is not modelled.
- Lifecycle.LifecycleSafe: the access bootstrap after ACTIVE is modelled in `AccessRuns`, and with it the time until the provisioner gives up its mutex; each access to the store or the index is one step.
- Lifecycle.LeavesCreatingOnce: says at most once; that provisioning ends is not proved, since kind is not modelled. The refusal to delete a cluster with node groups is left out.
- Lifecycle.Server.AddCluster: validation of the request (name pattern, versions, modes) is left out.
- NodePool.PoolConserved: sizes are not negative, since a negative one ends the process; so too in `NodePoolSteps`.
- NodePool.Pool.CreateNodegroup: taints, scaling limits and other echoed fields are left out, and the store lookup that finds the cluster deleted in between is not modelled.
- NodePoolSteps.PoolSafeInEveryInterleaving: assumes user labels that leave the nodegroup and control-plane labels alone.
- NodePoolSteps.SoloAllocator: assumes that every call succeeds; failing calls are covered by `NodePool.FaultyAllocationSafe` and by the every-interleaving result.
- AwsAuthCache.BoundedStaleness: one cluster name that is never reused; the cache is global and keeps entries of deleted clusters for their lifetime.
- Webhook.HandleTokenReview: error messages, audiences and the extra attributes of the answer are left out, and refusals are not told apart.
