/** internal/api/access.go when requests overlap. Nothing holds a lock from one access of the store to
    the next, or across the calls to the API server: each of them is one step, in any order. */
module AccessSteps {
  import opened Text
  import opened Model
  import opened Rbac
  import opened Kube
  import opened Access
  import opened AccessRuns
  import Arn

  /** Why bindings are derived: to apply them, or to delete them; and for a disassociate, what to
      filter out afterwards. */
  datatype Aim = Grant | Revoke(filter: Option<Filter>)

  datatype Filter = Filter(principal: string, key: string, policy: string)

  /** A request, by what it does next. `record` is the entry it looked up; the request keeps the
      pointer, whether or not the map still holds it. */
  datatype Task =
    | Storing(key: string, entry: Entry)
    | Upserting(record: nat, key: string, policy: AssociatedPolicy)
    | Dropping(record: nat, key: string)
    | Listing(record: nat, aim: Aim)
    | Deriving(record: nat, names: set<string>, aim: Aim)
    // createOrReplace: POST, then PUT, then DELETE, then POST again
    | Applying(record: nat, todo: set<RBACBinding>)
    | Putting(record: nat, binding: RBACBinding, todo: set<RBACBinding>)
    | Unmaking(record: nat, binding: RBACBinding, todo: set<RBACBinding>)
    | Remaking(record: nat, binding: RBACBinding, todo: set<RBACBinding>)
    | Deleting(record: nat, todo: set<RBACBinding>, aim: Aim)
    | Filtering(filter: Filter)
    | Finding(principal: string)
    | Finished

  /** `heap` holds every record ever stored, `keys` is the map of the store. */
  datatype System = System(heap: seq<Entry>, keys: map<string, nat>, objects: map<Path, Obj>, namespaces: set<string>,
                         tasks: map<nat, Task>)

  /** A request arrives, namespaces change, or a request makes its next step: `pick` is the binding it
      is at, `ok` whether its call succeeds, `applied` whether a failed call took effect all the same. */
  datatype Event =
    | CreateRequest(id: nat, principal: string, username: string, groups: seq<string>)
    | AssociateRequest(id: nat, principal: string, policy: string, scope: Option<AccessScope>)
    | DisassociateRequest(id: nat, principal: string, policy: string)
    | DeleteRequest(id: nat, principal: string)
    | NamespaceAdded(name: string)
    | NamespaceRemoved(name: string)
    | Tick(id: nat, pick: RBACBinding, ok: bool, applied: bool)

  /** The entries as the store holds them. */
  ghost function View(s: System): Access.State {
    Access.State(map k | k in s.keys && s.keys[k] < |s.heap| :: s.heap[s.keys[k]], s.objects, s.namespaces, true)
  }

  function Arrive(s: System, e: Event): Option<Task>
    requires forall k :: k in s.keys ==> s.keys[k] < |s.heap|
  {
    match e
    case CreateRequest(_, principal, username, groups) =>
      if CreateAccepted(s.keys.Keys, principal)
      then Some(Storing(Arn.Canonicalize(principal).value, NewEntry(principal, username, groups)))
      else None
    case AssociateRequest(_, principal, policy, scope) =>
      if AssociateAccepted(s.keys.Keys, principal, policy, scope) then
        var key := LookupKey(s.keys.Keys, principal).value;
        Some(Upserting(s.keys[key], key, AssociatedPolicy(policy, ScopeOf(scope))))
      else None
    case DisassociateRequest(_, principal, policy) =>
      (match LookupKey(s.keys.Keys, principal)
       case Some(key) => Some(Listing(s.keys[key], Revoke(Some(Filter(principal, key, policy)))))
       case None => None)
    case DeleteRequest(_, principal) =>
      (match LookupKey(s.keys.Keys, principal)
       case Some(key) => Some(Dropping(s.keys[key], key))
       case None => None)
    case _ => None
  }

  /** Every pointer points somewhere. */
  ghost predicate Sound(s: System) {
    && (forall k :: k in s.keys ==> s.keys[k] < |s.heap|)
    && (forall t :: t in s.tasks ==> Points(s.tasks[t], |s.heap|))
  }

  predicate Points(t: Task, records: nat) {
    HasRecord(t) ==> t.record < records
  }

  predicate HasRecord(t: Task) {
    !(t.Storing? || t.Filtering? || t.Finding? || t.Finished?)
  }

  /* ---------- One step, in three parts: the store, the API server, and what the request does next ---------- */

  /** Rewrites the record that the store holds under a key. */
  ghost function Rewritten(s: System, key: string, policies: seq<AssociatedPolicy>): System
    requires key in s.keys && s.keys[key] < |s.heap|
  {
    s.(heap := s.heap[s.keys[key] := s.heap[s.keys[key]].(policies := policies)])
  }

  /** The state after the step's access of the store, if it makes one. */
  ghost function Stored(s: System, t: Task): System
    requires Sound(s)
  {
    match t
    case Storing(key, entry) => s.(heap := s.heap + [entry], keys := s.keys[key := |s.heap|])
    case Upserting(_, key, p) =>
      if key in s.keys then Rewritten(s, key, Upserted(s.heap[s.keys[key]].policies, p)) else s
    case Dropping(_, key) => s.(keys := s.keys - {key})
    case Filtering(f) =>
      if f.key in s.keys then Rewritten(s, f.key, Without(s.heap[s.keys[f.key]].policies, f.policy)) else s
    case _ => s
  }

  /** The step's call that changes objects, if it makes one. */
  function CallOf(t: Task, pick: RBACBinding): Option<(Verb, RBACBinding)> {
    match t
    case Applying(_, todo) => if pick in todo then Some((Post, pick)) else None
    case Putting(_, b, _) => Some((Put, b))
    case Unmaking(_, b, _) => Some((Delete, b))
    case Remaking(_, b, _) => Some((Post, b))
    case Deleting(_, todo, _) => if pick in todo then Some((Delete, pick)) else None
    case _ => None
  }

  function ReplyTo(s: System, call: (Verb, RBACBinding)): Option<int> {
    Reply(call.0, call.1.At(), Live(call.1), s.objects, s.namespaces)
  }

  function ObjectsAfter(s: System, call: Option<(Verb, RBACBinding)>): map<Path, Obj> {
    if call.None? then s.objects
    else Effect(call.value.0, call.value.1.At(), Live(call.value.1), s.objects, s.namespaces)
  }

  function AfterRevoking(aim: Aim): Task {
    if aim.Revoke? && aim.filter.Some? then Filtering(aim.filter.value) else Finished
  }

  /** What the request does next, when its call (if any) gets the server's `reply`. */
  ghost function Then(h: Hash, s: System, t: Task, pick: RBACBinding, ok: bool): Task
    requires Sound(s) && Points(t, |s.heap|)
  {
    var call := CallOf(t, pick);
    var done := ok && call.Some? && ReplyTo(s, call.value).None?;
    match t
    case Storing(_, _) => Finished
    case Upserting(r, _, _) => Listing(r, Grant)
    case Dropping(r, _) => Listing(r, Revoke(None))
    case Listing(r, aim) =>
      if !NeedsNamespaces(s.heap[r].policies) then Deriving(r, {}, aim)
      else if ok then Deriving(r, s.namespaces, aim)
      else if aim.Grant? then Finished
      else Deriving(r, {}, aim)
    case Deriving(r, names, aim) =>
      var bs := Wanted(h, s.heap[r].principal, s.heap[r].Subject(), s.heap[r].policies, names);
      if aim.Grant? then Applying(r, bs) else Deleting(r, bs, aim)
    case Applying(r, todo) =>
      if todo == {} then Finished
      else if pick !in todo then t
      else if done then Applying(r, todo - {pick})
      else if ok && ReplyTo(s, (Post, pick)) == Some(CONFLICT) then Putting(r, pick, todo - {pick})
      else Finished
    case Putting(r, b, todo) => if done then Applying(r, todo) else Unmaking(r, b, todo)
    case Unmaking(r, b, todo) => if done then Remaking(r, b, todo) else Finished
    case Remaking(r, b, todo) => if done then Applying(r, todo) else Finished
    case Deleting(r, todo, aim) =>
      if todo == {} then AfterRevoking(aim)
      else if pick !in todo then t
      else if ok then Deleting(r, todo - {pick}, aim)
      else AfterRevoking(aim)
    case Filtering(f) => Finding(f.principal)
    case Finding(principal) =>
      (match LookupKey(s.keys.Keys, principal)
       case Some(key) => Listing(s.keys[key], Grant)
       case None => Finished)
    case Finished => Finished
  }

  ghost function NextStep(h: Hash, s: System, e: Event): System
    requires Sound(s)
  {
    match e
    case NamespaceAdded(name) => if name == "" then s else s.(namespaces := s.namespaces + {name})
    case NamespaceRemoved(name) =>
      if name == "" then s
      else s.(namespaces := s.namespaces - {name}, objects := map p | p in s.objects && p.ns != name :: s.objects[p])
    case Tick(id, pick, ok, applied) =>
      if id !in s.tasks then s
      else
        var t := s.tasks[id];
        Stored(s, t).(objects := ObjectsAfter(s, if ok || applied then CallOf(t, pick) else None),
                      tasks := s.tasks[id := Then(h, s, t, pick, ok)])
    case _ =>
      if e.id in s.tasks || Arrive(s, e).None? then s else s.(tasks := s.tasks[e.id := Arrive(s, e).value])
  }

  lemma StoredSound(s: System, t: Task)
    requires Sound(s)
    ensures var s' := Stored(s, t);
            && |s.heap| <= |s'.heap| && (forall k :: k in s'.keys ==> s'.keys[k] < |s'.heap|)
            && s'.tasks == s.tasks && s'.objects == s.objects && s'.namespaces == s.namespaces
  {
  }

  lemma ThenPoints(h: Hash, s: System, t: Task, pick: RBACBinding, ok: bool)
    requires Sound(s) && Points(t, |s.heap|)
    ensures Points(Then(h, s, t, pick, ok), |s.heap|)
  {
  }

  lemma NextSound(h: Hash, s: System, e: Event)
    requires Sound(s)
    ensures Sound(NextStep(h, s, e))
  {
    if e.Tick? && e.id in s.tasks {
      var t := s.tasks[e.id];
      assert Points(t, |s.heap|);
      StoredSound(s, t);
      ThenPoints(h, s, t, e.pick, e.ok);
      var s' := NextStep(h, s, e);
      forall u | u in s'.tasks ensures Points(s'.tasks[u], |s'.heap|) {
        assert u != e.id ==> Points(s.tasks[u], |s.heap|);
      }
    }
  }

  ghost function Run(h: Hash, s: System, es: seq<Event>): (t: System)
    requires Sound(s)
    ensures Sound(t)
  {
    if |es| == 0 then s
    else
      NextSound(h, Run(h, s, es[..|es| - 1]), es[|es| - 1]);
      NextStep(h, Run(h, s, es[..|es| - 1]), es[|es| - 1])
  }

  /** A cluster that is ready, with no entries and whatever objects other people have made. */
  ghost predicate Initial(s: System) {
    && s.heap == [] && s.keys == map[] && s.tasks == map[] && "" !in s.namespaces
    && forall p :: p in s.objects ==> Placeable(p, s.namespaces) && !s.objects[p].owned
  }

  /* ---------- Every interleaving: each grant names an entry ---------- */

  /** The bindings a request has derived and not yet dealt with. */
  ghost function Todo(t: Task): set<RBACBinding> {
    match t
    case Applying(_, todo) => todo
    case Putting(_, b, todo) => todo + {b}
    case Unmaking(_, b, todo) => todo + {b}
    case Remaking(_, b, todo) => todo + {b}
    case Deleting(_, todo, _) => todo
    case _ => {}
  }

  /** A binding of the entry's principal and user, to the role of some known policy. */
  ghost predicate BindingOf(h: Hash, e: Entry, b: RBACBinding) {
    exists policy :: IsKnownAccessPolicy(policy) && b == MakeBinding(h, e.principal, e.Subject(), policy, b.ns)
  }

  ghost predicate NamesAnEntry(h: Hash, heap: seq<Entry>, p: Path, o: Obj) {
    exists r, b :: 0 <= r < |heap| && BindingOf(h, heap[r], b) && b.At() == p && Live(b) == o
  }

  ghost predicate TodoTrue(h: Hash, heap: seq<Entry>, t: Task) {
    HasRecord(t) && t.record < |heap| ==> forall b :: b in Todo(t) ==> BindingOf(h, heap[t.record], b)
  }

  ghost predicate Truthful(h: Hash, s: System) {
    && (forall t :: t in s.tasks ==> TodoTrue(h, s.heap, s.tasks[t]))
    && (forall p :: p in s.objects && s.objects[p].owned ==> NamesAnEntry(h, s.heap, p, s.objects[p]))
  }

  /** The store only changes policies: a record keeps its principal and user. */
  lemma IdentitiesKept(s: System, t: Task, r: nat)
    requires Sound(s) && r < |s.heap|
    ensures r < |Stored(s, t).heap|
    ensures Stored(s, t).heap[r].principal == s.heap[r].principal && Stored(s, t).heap[r].Subject() == s.heap[r].Subject()
  {
  }

  lemma StillNamed(h: Hash, s: System, t: Task, p: Path, o: Obj)
    requires Sound(s) && NamesAnEntry(h, s.heap, p, o)
    ensures NamesAnEntry(h, Stored(s, t).heap, p, o)
  {
    var r, b :| 0 <= r < |s.heap| && BindingOf(h, s.heap[r], b) && b.At() == p && Live(b) == o;
    IdentitiesKept(s, t, r);
    assert BindingOf(h, Stored(s, t).heap[r], b);
  }

  lemma TodoStaysTrue(h: Hash, s: System, t: Task, u: Task)
    requires Sound(s) && Points(u, |s.heap|) && TodoTrue(h, s.heap, u)
    ensures TodoTrue(h, Stored(s, t).heap, u)
  {
    if HasRecord(u) {
      IdentitiesKept(s, t, u.record);
      forall b | b in Todo(u) ensures BindingOf(h, Stored(s, t).heap[u.record], b) {
        assert BindingOf(h, s.heap[u.record], b);
      }
    }
  }

  lemma ThenTrue(h: Hash, s: System, t: Task, pick: RBACBinding, ok: bool)
    requires Sound(s) && Points(t, |s.heap|) && TodoTrue(h, s.heap, t)
    ensures TodoTrue(h, s.heap, Then(h, s, t, pick, ok))
  {
    if t.Deriving? {
      var e := s.heap[t.record];
      forall b | b in Wanted(h, e.principal, e.Subject(), e.policies, t.names) ensures BindingOf(h, e, b) {
        var p :| p in e.policies && b in PolicyBindings(h, e.principal, e.Subject(), p, t.names);
      }
    } else if HasRecord(t) {
      assert forall b :: b in Todo(Then(h, s, t, pick, ok)) ==> b in Todo(t);
    }
  }

  /** A call writes only the binding it is for. */
  lemma CallWrites(s: System, call: Option<(Verb, RBACBinding)>, p: Path)
    requires p in ObjectsAfter(s, call)
    ensures || (p in s.objects && ObjectsAfter(s, call)[p] == s.objects[p])
            || (&& call.Some? && !call.value.0.Delete? && ReplyTo(s, call.value).None?
                && call.value.1.At() == p && ObjectsAfter(s, call)[p] == Live(call.value.1))
  {
  }

  lemma CallIsTodo(t: Task, pick: RBACBinding)
    requires CallOf(t, pick).Some?
    ensures HasRecord(t) && CallOf(t, pick).value.1 in Todo(t)
  {
  }

  lemma NextTruthful(h: Hash, s: System, e: Event)
    requires Sound(s) && Truthful(h, s)
    ensures Truthful(h, NextStep(h, s, e))
  {
    if e.Tick? && e.id in s.tasks {
      TickTruthful(h, s, e);
    }
  }

  lemma TickTruthful(h: Hash, s: System, e: Event)
    requires Sound(s) && Truthful(h, s) && e.Tick? && e.id in s.tasks
    ensures Truthful(h, NextStep(h, s, e))
  {
    var s', t := NextStep(h, s, e), s.tasks[e.id];
    var call := if e.ok || e.applied then CallOf(t, e.pick) else None;
    assert Points(t, |s.heap|) && TodoTrue(h, s.heap, t);
    ThenTrue(h, s, t, e.pick, e.ok);
    ThenPoints(h, s, t, e.pick, e.ok);
    TodoStaysTrue(h, s, t, Then(h, s, t, e.pick, e.ok));
    forall u | u in s'.tasks ensures TodoTrue(h, s'.heap, s'.tasks[u]) {
      if u != e.id {
        assert Points(s.tasks[u], |s.heap|) && TodoTrue(h, s.heap, s.tasks[u]);
        TodoStaysTrue(h, s, t, s.tasks[u]);
      }
    }
    forall p | p in s'.objects && s'.objects[p].owned ensures NamesAnEntry(h, s'.heap, p, s'.objects[p]) {
      CallWrites(s, call, p);
      if !(p in s.objects && s'.objects[p] == s.objects[p]) {
        CallIsTodo(t, e.pick);
        assert BindingOf(h, s.heap[t.record], call.value.1);
      }
      StillNamed(h, s, t, p, s'.objects[p]);
    }
  }

  /** In every interleaving of requests and namespace changes, API failures included: each generated
      object is a binding of the principal and user of some entry that was stored, to the role of the
      policy in its name. */
  lemma {:induction false} EveryGrantNamesAnEntry(h: Hash, s: System, es: seq<Event>)
    requires Initial(s)
    ensures Truthful(h, Run(h, s, es))
    decreases |es|
  {
    if |es| > 0 {
      var front := es[..|es| - 1];
      EveryGrantNamesAnEntry(h, s, front);
      NextTruthful(h, Run(h, s, front), es[|es| - 1]);
    }
  }

  /* ---------- Every interleaving: where orphans come from ---------- */

  /** Some current entry implies the binding. */
  ghost predicate Current(h: Hash, s: System, b: RBACBinding)
    requires Sound(s)
  {
    exists k :: k in s.keys && b in Derived(h, s.heap[s.keys[k]], s.namespaces)
  }

  /** A grant that comes too late: the binding a step writes, when no current entry implies it. */
  ghost function Late(h: Hash, s: System, e: Event): set<Path>
    requires Sound(s)
  {
    if e.Tick? && e.id in s.tasks && (e.ok || e.applied) then
      match CallOf(s.tasks[e.id], e.pick)
      case Some((verb, b)) =>
        if verb != Delete && ReplyTo(s, (verb, b)).None? && !Current(h, s, b) then {b.At()} else {}
      case None => {}
    else {}
  }

  ghost predicate KeptUnder(h: Hash, s: System, k: string, b: RBACBinding) {
    k in s.keys && s.keys[k] < |s.heap| && b in Derived(h, s.heap[s.keys[k]], s.namespaces)
  }

  /** The bindings that an access of the store takes out of an entry. */
  ghost function Withdrawn(h: Hash, s: System, e: Event): set<Path>
    requires Sound(s)
  {
    if e.Tick? && e.id in s.tasks then
      var s' := Stored(s, s.tasks[e.id]);
      set k, b | k in s.keys && b in Derived(h, s.heap[s.keys[k]], s.namespaces) && !KeptUnder(h, s', k, b) :: b.At()
    else {}
  }

  lemma JustifiedIsCurrent(h: Hash, s: System, p: Path)
    requires Sound(s) && p in s.objects
    ensures Justified(h, View(s), p) <==> exists b :: Current(h, s, b) && b.At() == p && Live(b) == s.objects[p]
  {
    if Justified(h, View(s), p) {
      var k :| k in View(s).entries && JustifiedBy(h, View(s).entries[k], s.namespaces, p, s.objects[p]);
      var b :| b in Derived(h, View(s).entries[k], s.namespaces) && b.At() == p && Live(b) == s.objects[p];
      assert Current(h, s, b);
    }
    if b :| Current(h, s, b) && b.At() == p && Live(b) == s.objects[p] {
      var k :| k in s.keys && b in Derived(h, s.heap[s.keys[k]], s.namespaces);
      assert View(s).entries[k] == s.heap[s.keys[k]];
      JustifiedByEntry(h, View(s), k, b);
    }
  }

  /** A step can orphan a grant only by writing it too late or by taking it out of its entry. */
  lemma StepOrphansOnly(h: Hash, s: System, e: Event)
    requires Sound(s)
    ensures Orphans(h, View(NextStep(h, s, e))) <= Orphans(h, View(s)) + Late(h, s, e) + Withdrawn(h, s, e)
  {
    NextSound(h, s, e);
    var s' := NextStep(h, s, e);
    forall p | p in Orphans(h, View(s')) && p !in Orphans(h, View(s)) ensures p in Late(h, s, e) + Withdrawn(h, s, e) {
      if e.Tick? && e.id in s.tasks {
        TickOrphansOnly(h, s, e, p);
      } else {
        QuietStepKeeps(h, s, e, p);
      }
    }
  }

  lemma TickOrphansOnly(h: Hash, s: System, e: Event, p: Path)
    requires Sound(s) && Sound(NextStep(h, s, e)) && e.Tick? && e.id in s.tasks
    requires p in Orphans(h, View(NextStep(h, s, e))) && p !in Orphans(h, View(s))
    ensures p in Late(h, s, e) + Withdrawn(h, s, e)
  {
    var s', t := NextStep(h, s, e), s.tasks[e.id];
    var call := if e.ok || e.applied then CallOf(t, e.pick) else None;
    assert p in s'.objects && s'.objects == ObjectsAfter(s, call);
    CallWrites(s, call, p);
    if p in s.objects && s'.objects[p] == s.objects[p] {
      JustifiedIsCurrent(h, s, p);
      var b :| Current(h, s, b) && b.At() == p && Live(b) == s.objects[p];
      OrphanNotCurrent(h, s', p, b);
      NoLongerCurrent(h, s, e, b);
    } else {
      WrittenLate(h, s, e, p, call.value.1);
    }
  }

  lemma OrphanNotCurrent(h: Hash, s: System, p: Path, b: RBACBinding)
    requires Sound(s) && p in Orphans(h, View(s)) && b.At() == p && Live(b) == s.objects[p]
    ensures !Current(h, s, b)
  {
    JustifiedIsCurrent(h, s, p);
  }

  lemma NoLongerCurrent(h: Hash, s: System, e: Event, b: RBACBinding)
    requires Sound(s) && Sound(NextStep(h, s, e)) && e.Tick? && e.id in s.tasks
    requires Current(h, s, b) && !Current(h, NextStep(h, s, e), b)
    ensures b.At() in Withdrawn(h, s, e)
  {
    var s' := Stored(s, s.tasks[e.id]);
    StoredSound(s, s.tasks[e.id]);
    var k :| k in s.keys && b in Derived(h, s.heap[s.keys[k]], s.namespaces);
    assert !KeptUnder(h, s', k, b);
  }

  lemma WrittenLate(h: Hash, s: System, e: Event, p: Path, b: RBACBinding)
    requires Sound(s) && Sound(NextStep(h, s, e)) && e.Tick? && e.id in s.tasks && (e.ok || e.applied)
    requires var call := CallOf(s.tasks[e.id], e.pick);
             call.Some? && !call.value.0.Delete? && ReplyTo(s, call.value).None? && call.value.1 == b
    requires p in Orphans(h, View(NextStep(h, s, e))) && b.At() == p && Live(b) == NextStep(h, s, e).objects[p]
    ensures p in Late(h, s, e)
  {
    var s' := NextStep(h, s, e);
    OrphanNotCurrent(h, s', p, b);
    CallKeepsStore(s, s.tasks[e.id], e.pick);
    assert s'.heap == s.heap && s'.keys == s.keys && s'.namespaces == s.namespaces;
    assert !Current(h, s', b);
    assert !Current(h, s, b);
  }

  /** A step that calls the API server does not touch the store. */
  lemma CallKeepsStore(s: System, t: Task, pick: RBACBinding)
    requires Sound(s) && CallOf(t, pick).Some?
    ensures Stored(s, t) == s
  {
  }

  lemma QuietStepKeeps(h: Hash, s: System, e: Event, p: Path)
    requires Sound(s) && Sound(NextStep(h, s, e)) && !(e.Tick? && e.id in s.tasks)
    requires p in NextStep(h, s, e).objects && NextStep(h, s, e).objects[p].owned && p !in Orphans(h, View(s))
    ensures p !in Orphans(h, View(NextStep(h, s, e)))
  {
    var s' := NextStep(h, s, e);
    assert p in s.objects && s'.objects[p] == s.objects[p];
    JustifiedIsCurrent(h, s, p);
    JustifiedIsCurrent(h, s', p);
    var b :| Current(h, s, b) && b.At() == p && Live(b) == s.objects[p];
    var k :| k in s.keys && b in Derived(h, s.heap[s.keys[k]], s.namespaces);
    if e.NamespaceAdded? {
      DerivedGrows(h, s.heap[s.keys[k]], s.namespaces, e.name);
    } else if e.NamespaceRemoved? && e.name != "" {
      DerivedShrinks(h, s.heap[s.keys[k]], s.namespaces, e.name, b);
    }
    assert Current(h, s', b);
  }

  /* ---------- No late grants, when the store leaves records with a reconcile in flight alone ---------- */

  /** The task will still apply bindings of its record. */
  predicate IsGranting(t: Task) {
    || t.Upserting? || t.Applying? || t.Putting? || t.Unmaking? || t.Remaking?
    || ((t.Listing? || t.Deriving?) && t.aim.Grant?)
  }

  /** The record a step of this task rewrites or takes out of the map. */
  ghost function Disturbed(s: System, t: Task): Option<nat> {
    match t
    case Storing(key, _) => if key in s.keys then Some(s.keys[key]) else None
    case Upserting(_, key, _) => if key in s.keys then Some(s.keys[key]) else None
    case Dropping(_, key) => if key in s.keys then Some(s.keys[key]) else None
    case Filtering(f) => if f.key in s.keys then Some(s.keys[f.key]) else None
    case _ => None
  }

  /** The step does not disturb a record that another request is still granting from. */
  ghost predicate Orderly(s: System, e: Event) {
    e.Tick? && e.id in s.tasks && Disturbed(s, s.tasks[e.id]).Some? ==>
      forall u :: u in s.tasks && u != e.id && IsGranting(s.tasks[u]) ==> s.tasks[u].record != Disturbed(s, s.tasks[e.id]).value
  }

  ghost predicate Held(s: System, r: nat) {
    exists k :: k in s.keys && s.keys[k] == r
  }

  /** The entry implies the binding whatever namespaces there are, as long as the binding's exists. */
  ghost predicate Fits(h: Hash, e: Entry, b: RBACBinding) {
    forall existing :: Placeable(b.At(), existing) ==> b in Derived(h, e, existing)
  }

  /** A granting request is at a record that the store holds, and all it has to apply is implied. */
  ghost predicate Steady(h: Hash, s: System, t: Task)
    requires Sound(s) && Points(t, |s.heap|)
  {
    IsGranting(t) ==>
      && Held(s, t.record)
      && (t.Upserting? ==> t.key in s.keys && s.keys[t.key] == t.record)
      && (t.Deriving? ==> "" !in t.names && (t.names != {} ==> NeedsNamespaces(s.heap[t.record].policies)))
      && (forall b :: b in Todo(t) ==> Fits(h, s.heap[t.record], b))
  }

  ghost predicate AllSteady(h: Hash, s: System)
    requires Sound(s)
  {
    && "" !in s.namespaces
    && (forall p :: p in s.objects ==> Placeable(p, s.namespaces))
    && (forall j, k :: j in s.keys && k in s.keys && s.keys[j] == s.keys[k] ==> j == k)
    && (forall t :: t in s.tasks ==> Points(s.tasks[t], |s.heap|) && Steady(h, s, s.tasks[t]))
  }

  lemma DerivedFits(h: Hash, e: Entry, names: set<string>, b: RBACBinding)
    requires "" !in names && (names != {} ==> NeedsNamespaces(e.policies))
    requires b in Wanted(h, e.principal, e.Subject(), e.policies, names)
    ensures Fits(h, e, b)
  {
    var p :| p in e.policies && b in PolicyBindings(h, e.principal, e.Subject(), p, names);
    forall existing | Placeable(b.At(), existing) ensures b in Derived(h, e, existing) {
      if p.scope.kind != CLUSTER_SCOPE {
        var pattern :| pattern in p.scope.namespaces && b.ns in ExpandOne(pattern, names);
        assert b.ns in ExpandOne(pattern, Visible(e.policies, existing));
        assert b.ns in ExpandSet(p.scope.namespaces, Visible(e.policies, existing));
      }
      assert b in PolicyBindings(h, e.principal, e.Subject(), p, Visible(e.policies, existing));
    }
  }

  lemma ThenSteady(h: Hash, s: System, t: Task, pick: RBACBinding, ok: bool)
    requires Sound(s) && Points(t, |s.heap|) && Steady(h, s, t) && "" !in s.namespaces && !t.Upserting?
    ensures var u := Then(h, s, t, pick, ok); Points(u, |s.heap|) && Steady(h, s, u)
  {
    ThenPoints(h, s, t, pick, ok);
    var u := Then(h, s, t, pick, ok);
    if t.Deriving? && t.aim.Grant? {
      forall b | b in Todo(u) ensures Fits(h, s.heap[u.record], b) {
        DerivedFits(h, s.heap[t.record], t.names, b);
      }
    } else if IsGranting(u) && IsGranting(t) {
      assert forall b :: b in Todo(u) ==> b in Todo(t);
    }
  }

  /** An access of the store leaves the records it does not disturb, and where they are held. */
  lemma Undisturbed(s: System, t: Task, r: nat)
    requires Sound(s) && r < |s.heap| && Disturbed(s, t) != Some(r)
    ensures r < |Stored(s, t).heap| && Stored(s, t).heap[r] == s.heap[r]
    ensures Held(s, r) ==> Held(Stored(s, t), r)
    ensures forall k :: k in s.keys && s.keys[k] == r ==> k in Stored(s, t).keys && Stored(s, t).keys[k] == r
  {
    if Held(s, r) {
      var k :| k in s.keys && s.keys[k] == r;
      assert k in Stored(s, t).keys && Stored(s, t).keys[k] == r;
    }
  }

  lemma OtherSteady(h: Hash, s: System, t: Task, u: Task)
    requires Sound(s) && Points(u, |s.heap|) && Steady(h, s, u)
    requires IsGranting(u) ==> Disturbed(s, t) != Some(u.record)
    ensures Sound(Stored(s, t)) && Points(u, |Stored(s, t).heap|) && Steady(h, Stored(s, t), u)
  {
    StoredSound(s, t);
    StoreIsSound(s, t);
    if IsGranting(u) {
      Undisturbed(s, t, u.record);
    }
  }

  lemma StoreIsSound(s: System, t: Task)
    requires Sound(s)
    ensures Sound(Stored(s, t))
  {
    StoredSound(s, t);
    forall u | u in s.tasks ensures Points(s.tasks[u], |Stored(s, t).heap|) {
      assert Points(s.tasks[u], |s.heap|);
    }
  }

  lemma OwnSteady(h: Hash, s: System, e: Event)
    requires Sound(s) && AllSteady(h, s) && e.Tick? && e.id in s.tasks
    ensures var t := s.tasks[e.id]; var s' := Stored(s, t); var u := Then(h, s, t, e.pick, e.ok);
            Sound(s') && Points(u, |s'.heap|) && Steady(h, s', u)
  {
    var t := s.tasks[e.id];
    assert Points(t, |s.heap|) && Steady(h, s, t);
    StoreIsSound(s, t);
    ThenPoints(h, s, t, e.pick, e.ok);
    StoredSound(s, t);
    if t.Upserting? {
      assert Held(Stored(s, t), t.record);
    } else {
      ThenSteady(h, s, t, e.pick, e.ok);
      if IsGranting(Then(h, s, t, e.pick, e.ok)) {
        assert Stored(s, t) == s;
      }
    }
  }

  lemma StoredKeysApart(s: System, t: Task)
    requires Sound(s) && forall j, k :: j in s.keys && k in s.keys && s.keys[j] == s.keys[k] ==> j == k
    ensures var s' := Stored(s, t); forall j, k :: j in s'.keys && k in s'.keys && s'.keys[j] == s'.keys[k] ==> j == k
  {
  }

  lemma CallKeepsPlaces(s: System, call: Option<(Verb, RBACBinding)>)
    requires forall p :: p in s.objects ==> Placeable(p, s.namespaces)
    ensures forall p :: p in ObjectsAfter(s, call) ==> Placeable(p, s.namespaces)
  {
  }

  lemma TickSteady(h: Hash, s: System, e: Event)
    requires Sound(s) && AllSteady(h, s) && Orderly(s, e) && e.Tick? && e.id in s.tasks
    ensures Sound(NextStep(h, s, e)) && AllSteady(h, NextStep(h, s, e))
  {
    NextSound(h, s, e);
    var s', t := NextStep(h, s, e), s.tasks[e.id];
    StoredSound(s, t);
    OwnSteady(h, s, e);
    StoredKeysApart(s, t);
    CallKeepsPlaces(s, if e.ok || e.applied then CallOf(t, e.pick) else None);
    forall u | u in s'.tasks ensures Points(s'.tasks[u], |s'.heap|) && Steady(h, s', s'.tasks[u]) {
      if u == e.id {
        SteadyElsewhere(h, Stored(s, t), s', s'.tasks[u]);
      } else {
        assert Points(s.tasks[u], |s.heap|) && Steady(h, s, s.tasks[u]);
        OtherSteady(h, s, t, s.tasks[u]);
        SteadyElsewhere(h, Stored(s, t), s', s'.tasks[u]);
      }
    }
  }

  /** Whether a task is steady depends on the store alone. */
  lemma SteadyElsewhere(h: Hash, s: System, s': System, t: Task)
    requires Sound(s) && Sound(s') && s.heap == s'.heap && s.keys == s'.keys && Points(t, |s.heap|) && Steady(h, s, t)
    ensures Steady(h, s', t)
  {
    if IsGranting(t) {
      var k :| k in s.keys && s.keys[k] == t.record;
      assert k in s'.keys && s'.keys[k] == t.record;
    }
  }

  lemma ArrivalSteady(h: Hash, s: System, e: Event)
    requires Sound(s) && Arrive(s, e).Some?
    ensures Points(Arrive(s, e).value, |s.heap|) && Steady(h, s, Arrive(s, e).value)
  {
    var t := Arrive(s, e).value;
    if t.Upserting? {
      assert t.key in s.keys && s.keys[t.key] == t.record;
    }
  }

  lemma NextSteady(h: Hash, s: System, e: Event)
    requires Sound(s) && AllSteady(h, s) && Orderly(s, e)
    ensures Sound(NextStep(h, s, e)) && AllSteady(h, NextStep(h, s, e))
  {
    NextSound(h, s, e);
    var s' := NextStep(h, s, e);
    if e.Tick? {
      if e.id in s.tasks {
        TickSteady(h, s, e);
      }
    } else {
      forall u | u in s'.tasks ensures Points(s'.tasks[u], |s'.heap|) && Steady(h, s', s'.tasks[u]) {
        if u !in s.tasks {
          ArrivalSteady(h, s, e);
        } else {
          assert Points(s.tasks[u], |s.heap|) && Steady(h, s, s.tasks[u]);
        }
        SteadyElsewhere(h, s, s', s'.tasks[u]);
      }
    }
  }

  lemma SteadyIsNotLate(h: Hash, s: System, e: Event)
    requires Sound(s) && AllSteady(h, s)
    ensures Late(h, s, e) == {}
  {
    if e.Tick? && e.id in s.tasks && CallOf(s.tasks[e.id], e.pick).Some? {
      var t, call := s.tasks[e.id], CallOf(s.tasks[e.id], e.pick).value;
      assert Points(t, |s.heap|) && Steady(h, s, t);
      CallIsTodo(t, e.pick);
      if call.0 != Delete && ReplyTo(s, call).None? {
        var k :| k in s.keys && s.keys[k] == t.record;
        assert Fits(h, s.heap[t.record], call.1);
        assert call.1 in Derived(h, s.heap[s.keys[k]], s.namespaces);
      }
    }
  }

  ghost predicate OrderlyRun(h: Hash, s: System, es: seq<Event>)
    requires Sound(s)
  {
    |es| == 0 || (OrderlyRun(h, s, es[..|es| - 1]) && Orderly(Run(h, s, es[..|es| - 1]), es[|es| - 1]))
  }

  /** The bindings taken out of their entries during a run. */
  ghost function RunWithdrawn(h: Hash, s: System, es: seq<Event>): set<Path>
    requires Sound(s)
  {
    if |es| == 0 then {}
    else RunWithdrawn(h, s, es[..|es| - 1]) + Withdrawn(h, Run(h, s, es[..|es| - 1]), es[|es| - 1])
  }

  /** When no request disturbs a record that another is still granting from, no grant comes too late:
      only what was taken out of an entry can be orphaned, in any interleaving otherwise and whatever
      calls fail. */
  lemma {:induction false} OrderlyRunsGrantInTime(h: Hash, s: System, es: seq<Event>)
    requires Initial(s) && OrderlyRun(h, s, es)
    ensures AllSteady(h, Run(h, s, es)) && forall e :: Late(h, Run(h, s, es), e) == {}
    ensures Orphans(h, View(Run(h, s, es))) <= RunWithdrawn(h, s, es)
    decreases |es|
  {
    if |es| > 0 {
      var front := es[..|es| - 1];
      OrderlyRunsGrantInTime(h, s, front);
      StepOrphansOnly(h, Run(h, s, front), es[|es| - 1]);
      SteadyIsNotLate(h, Run(h, s, front), es[|es| - 1]);
      NextSteady(h, Run(h, s, front), es[|es| - 1]);
    }
    forall e ensures Late(h, Run(h, s, es), e) == {} {
      SteadyIsNotLate(h, Run(h, s, es), e);
    }
  }

  /* ---------- Steps of example runs ---------- */

  const NOTHING := System([], map[], map[], {}, map[])

  /** One more step of a run from nothing. */
  lemma Go(h: Hash, xs: seq<Event>, m: System, e: Event, t: System) returns (es: seq<Event>)
    requires Run(h, NOTHING, xs) == m && NextStep(h, m, e) == t
    ensures es == xs + [e] && Run(h, NOTHING, es) == t
    ensures OrderlyRun(h, NOTHING, xs) && Orderly(m, e) ==> OrderlyRun(h, NOTHING, es)
  {
    es := xs + [e];
    assert es[..|es| - 1] == xs;
  }

  const EVERYWHERE := AccessScope(CLUSTER_SCOPE, [])

  function Viewer(principal: string): Entry {
    Entry(principal, principal, [], [AssociatedPolicy(VIEW_POLICY, EVERYWHERE)])
  }

  function ViewGrant(h: Hash, principal: string): RBACBinding {
    MakeBinding(h, principal, principal, VIEW_POLICY, "")
  }

  lemma ViewerBindings(h: Hash, principal: string)
    requires principal != ""
    ensures Wanted(h, principal, Viewer(principal).Subject(), Viewer(principal).policies, {}) == {ViewGrant(h, principal)}
  {
    OnePolicy(h, Viewer(principal), {});
  }

  function Ok(id: nat, b: RBACBinding): Event {
    Tick(id, b, true, true)
  }

  lemma FindsPrincipal(principal: string)
    requires principal != "" && Arn.Canonicalize(principal) == Arn.Ok(principal)
    ensures CreateAccepted({}, principal) && LookupKey({principal}, principal) == Some(principal)
    ensures AssociateAccepted({principal}, principal, VIEW_POLICY, None)
  {
  }

  /** The state in which request `id` is at `t`. */
  function At(s: System, id: nat, t: Task): System {
    s.(tasks := s.tasks[id := t])
  }

  /** A step that neither accesses the store nor changes an object. */
  lemma GoTask(h: Hash, xs: seq<Event>, s: System, id: nat, t: Task, b: RBACBinding, u: Task) returns (es: seq<Event>)
    requires Run(h, NOTHING, xs) == At(s, id, t)
    requires !t.Storing? && !t.Upserting? && !t.Dropping? && !t.Filtering? && CallOf(t, b).None?
    requires Sound(At(s, id, t)) && Points(t, |s.heap|) && Then(h, At(s, id, t), t, b, true) == u
    ensures Run(h, NOTHING, es) == At(s, id, u)
    ensures OrderlyRun(h, NOTHING, xs) ==> OrderlyRun(h, NOTHING, es)
  {
    var m := At(s, id, t);
    assert m.tasks[id := u] == s.tasks[id := u];
    es := Go(h, xs, m, Ok(id, b), At(s, id, u));
  }

  /** A step that calls the API server. */
  lemma GoCall(h: Hash, xs: seq<Event>, s: System, id: nat, t: Task, b: RBACBinding, u: Task, objects: map<Path, Obj>) returns (es: seq<Event>)
    requires Run(h, NOTHING, xs) == At(s, id, t)
    requires CallOf(t, b).Some? && ObjectsAfter(s, CallOf(t, b)) == objects
    requires Sound(At(s, id, t)) && Points(t, |s.heap|) && Then(h, At(s, id, t), t, b, true) == u
    ensures Run(h, NOTHING, es) == At(s.(objects := objects), id, u)
    ensures OrderlyRun(h, NOTHING, xs) ==> OrderlyRun(h, NOTHING, es)
  {
    var m := At(s, id, t);
    assert m.tasks[id := u] == s.tasks[id := u];
    es := Go(h, xs, m, Ok(id, b), At(s.(objects := objects), id, u));
  }

  /** A request arrives. */
  lemma GoArrive(h: Hash, xs: seq<Event>, s: System, e: Event, u: Task) returns (es: seq<Event>)
    requires Run(h, NOTHING, xs) == s && Sound(s) && !e.Tick? && !e.NamespaceAdded? && !e.NamespaceRemoved? && e.id !in s.tasks
    requires Arrive(s, e) == Some(u)
    ensures Run(h, NOTHING, es) == At(s, e.id, u)
    ensures OrderlyRun(h, NOTHING, xs) ==> OrderlyRun(h, NOTHING, es)
  {
    es := Go(h, xs, s, e, At(s, e.id, u));
  }

  function Unview(principal: string): Filter {
    Filter(principal, principal, VIEW_POLICY)
  }

  /** The principal's entry as viewer, without its grant or with it. */
  function Viewing(h: Hash, principal: string, granted: bool, tasks: map<nat, Task>): System {
    var b := ViewGrant(h, principal);
    System([Viewer(principal)], map[principal := 0], if granted then map[b.At() := Live(b)] else map[], {}, tasks)
  }

  /** Deriving the viewer's one binding. */
  lemma GoDerive(h: Hash, principal: string, xs: seq<Event>, s: System, id: nat, aim: Aim) returns (es: seq<Event>)
    requires principal != "" && s.heap == [Viewer(principal)] && Run(h, NOTHING, xs) == At(s, id, Listing(0, aim))
    ensures var bs := {ViewGrant(h, principal)};
            Run(h, NOTHING, es) == At(s, id, if aim.Grant? then Applying(0, bs) else Deleting(0, bs, aim))
    ensures OrderlyRun(h, NOTHING, xs) ==> OrderlyRun(h, NOTHING, es)
  {
    var b := ViewGrant(h, principal);
    ViewerBindings(h, principal);
    es := GoTask(h, xs, s, id, Listing(0, aim), b, Deriving(0, {}, aim));
    es := GoTask(h, es, s, id, Deriving(0, {}, aim), b, if aim.Grant? then Applying(0, {b}) else Deleting(0, {b}, aim));
  }

  /** Applying it where it is missing. */
  lemma GoApply(h: Hash, principal: string, xs: seq<Event>, keys: map<string, nat>, tasks: map<nat, Task>, id: nat) returns (es: seq<Event>)
    requires Run(h, NOTHING, xs) == At(Viewing(h, principal, false, tasks).(keys := keys), id, Applying(0, {ViewGrant(h, principal)}))
    ensures Run(h, NOTHING, es) == At(Viewing(h, principal, true, tasks).(keys := keys), id, Finished)
    ensures OrderlyRun(h, NOTHING, xs) ==> OrderlyRun(h, NOTHING, es)
  {
    var b := ViewGrant(h, principal);
    assert {b} - {b} == {};
    es := GoCall(h, xs, Viewing(h, principal, false, tasks).(keys := keys), id, Applying(0, {b}), b, Applying(0, {}), map[b.At() := Live(b)]);
    es := GoTask(h, es, Viewing(h, principal, true, tasks).(keys := keys), id, Applying(0, {}), b, Finished);
  }

  /** Deleting it. */
  lemma GoDelete(h: Hash, principal: string, xs: seq<Event>, tasks: map<nat, Task>, id: nat, aim: Aim) returns (es: seq<Event>)
    requires Run(h, NOTHING, xs) == At(Viewing(h, principal, true, tasks), id, Deleting(0, {ViewGrant(h, principal)}, aim))
    ensures Run(h, NOTHING, es) == At(Viewing(h, principal, false, tasks), id, Deleting(0, {}, aim))
    ensures OrderlyRun(h, NOTHING, xs) ==> OrderlyRun(h, NOTHING, es)
  {
    var b, s := ViewGrant(h, principal), Viewing(h, principal, true, tasks);
    assert {b} - {b} == {} && s.objects - {b.At()} == map[];
    es := GoCall(h, xs, s, id, Deleting(0, {b}, aim), b, Deleting(0, {}, aim), map[]);
  }

  /* ---------- A delete that overtakes an associate ---------- */

  /** An entry has been created ... */
  lemma EntryCreated(h: Hash, principal: string) returns (es: seq<Event>)
    requires principal != "" && Arn.Canonicalize(principal) == Arn.Ok(principal)
    ensures Run(h, NOTHING, es) == System([NewEntry(principal, "", [])], map[principal := 0], map[], {}, map[0 := Finished])
    ensures OrderlyRun(h, NOTHING, es)
  {
    var entry := NewEntry(principal, "", []);
    FindsPrincipal(principal);
    var s1 := NOTHING.(tasks := map[0 := Storing(principal, entry)]);
    assert NOTHING.keys.Keys == {};
    es := Go(h, [], NOTHING, CreateRequest(0, principal, "", []), s1);
    es := Go(h, es, s1, Ok(0, ViewGrant(h, principal)), System([entry], map[principal := 0], map[], {}, map[0 := Finished]));
  }

  /** ... and a request associates a policy with it, */
  lemma AssociateInFlight(h: Hash, principal: string) returns (es: seq<Event>)
    requires principal != "" && Arn.Canonicalize(principal) == Arn.Ok(principal)
    ensures OrderlyRun(h, NOTHING, es) && Run(h, NOTHING, es) == At(Viewing(h, principal, false, ONE_DONE), 1, Listing(0, Grant))
  {
    es := EntryCreated(h, principal);
    es := GoAssociate(h, principal, es, System([NewEntry(principal, "", [])], map[principal := 0], map[], {}, ONE_DONE), 1);
    es := GoFirstUpsert(h, principal, es);
  }

  const ONE_DONE: map<nat, Task> := map[0 := Finished]

  lemma GoFirstUpsert(h: Hash, principal: string, xs: seq<Event>) returns (es: seq<Event>)
    requires var s := System([NewEntry(principal, "", [])], map[principal := 0], map[], {}, ONE_DONE);
             Run(h, NOTHING, xs) == At(s, 1, Upserting(0, principal, AssociatedPolicy(VIEW_POLICY, EVERYWHERE)))
    ensures Run(h, NOTHING, es) == At(Viewing(h, principal, false, ONE_DONE), 1, Listing(0, Grant))
    ensures OrderlyRun(h, NOTHING, xs) ==> OrderlyRun(h, NOTHING, es)
  {
    var p, bare := AssociatedPolicy(VIEW_POLICY, EVERYWHERE), NewEntry(principal, "", []);
    var m := At(System([bare], map[principal := 0], map[], {}, ONE_DONE), 1, Upserting(0, principal, p));
    assert Upserted(bare.policies, p) == [p] && m.tasks[1 := Listing(0, Grant)] == ONE_DONE[1 := Listing(0, Grant)];
    assert Stored(m, m.tasks[1]).heap == [Viewer(principal)];
    es := Go(h, xs, m, Ok(1, ViewGrant(h, principal)), At(Viewing(h, principal, false, ONE_DONE), 1, Listing(0, Grant)));
  }

  /** ... and has derived its binding */
  lemma BindingDerived(h: Hash, principal: string) returns (es: seq<Event>)
    requires principal != "" && Arn.Canonicalize(principal) == Arn.Ok(principal)
    ensures OrderlyRun(h, NOTHING, es)
    ensures Run(h, NOTHING, es) == At(Viewing(h, principal, false, ONE_DONE), 1, Applying(0, {ViewGrant(h, principal)}))
  {
    es := AssociateInFlight(h, principal);
    es := GoDerive(h, principal, es, Viewing(h, principal, false, ONE_DONE), 1, Grant);
  }

  /** The principal's deleted entry, while an associate still has its grant to apply. */
  function Deleted(h: Hash, principal: string): System {
    At(Viewing(h, principal, false, ONE_DONE), 1, Applying(0, {ViewGrant(h, principal)})).(keys := map[])
  }

  /** ... when the entry is deleted. */
  lemma DeleteArrives(h: Hash, principal: string) returns (es: seq<Event>)
    requires principal != "" && Arn.Canonicalize(principal) == Arn.Ok(principal)
    ensures Run(h, NOTHING, es) == At(Deleted(h, principal), 2, Listing(0, Revoke(None)))
  {
    var s := At(Viewing(h, principal, false, ONE_DONE), 1, Applying(0, {ViewGrant(h, principal)}));
    es := BindingDerived(h, principal);
    FindsPrincipal(principal);
    assert s.keys.Keys == {principal};
    es := GoArrive(h, es, s, DeleteRequest(2, principal), Dropping(0, principal));
    es := GoDrop(h, principal, es, s, 2);
  }

  lemma GoDrop(h: Hash, principal: string, xs: seq<Event>, s: System, id: nat) returns (es: seq<Event>)
    requires s.keys == map[principal := 0] && Run(h, NOTHING, xs) == At(s, id, Dropping(0, principal))
    ensures Run(h, NOTHING, es) == At(s.(keys := map[]), id, Listing(0, Revoke(None)))
  {
    var m := At(s, id, Dropping(0, principal));
    assert s.keys - {principal} == map[] && m.tasks[id := Listing(0, Revoke(None))] == s.tasks[id := Listing(0, Revoke(None))];
    es := Go(h, xs, m, Ok(id, ViewGrant(h, principal)), At(s.(keys := map[]), id, Listing(0, Revoke(None))));
  }

  /** The delete finds nothing to remove, and finishes. */
  lemma DeleteOvertakes(h: Hash, principal: string) returns (es: seq<Event>)
    requires principal != "" && Arn.Canonicalize(principal) == Arn.Ok(principal)
    ensures Run(h, NOTHING, es) == At(Deleted(h, principal), 2, Finished)
  {
    es := DeleteArrives(h, principal);
    es := GoDerive(h, principal, es, Deleted(h, principal), 2, Revoke(None));
    es := GoDeleteNothing(h, principal, es, Deleted(h, principal), 2);
  }

  /** Deleting the grant where it is missing. */
  lemma GoDeleteNothing(h: Hash, principal: string, xs: seq<Event>, s: System, id: nat) returns (es: seq<Event>)
    requires |s.heap| > 0 && s.objects == map[]
    requires Run(h, NOTHING, xs) == At(s, id, Deleting(0, {ViewGrant(h, principal)}, Revoke(None)))
    ensures Run(h, NOTHING, es) == At(s, id, Finished)
  {
    var b := ViewGrant(h, principal);
    assert {b} - {b} == {};
    es := GoCall(h, xs, s, id, Deleting(0, {b}, Revoke(None)), b, Deleting(0, {}, Revoke(None)), map[]);
    es := GoTask(h, es, s, id, Deleting(0, {}, Revoke(None)), b, Finished);
  }

  /** A grant can outlive its entry although every call succeeds: a delete runs between an associate's
      update of the store and its calls to the API server. When all requests are done the store holds
      no entry, and the cluster holds the grant. */
  lemma DeletedEntryKeepsItsGrant(h: Hash, principal: string) returns (es: seq<Event>)
    requires principal != "" && Arn.Canonicalize(principal) == Arn.Ok(principal)
    ensures Initial(NOTHING)
    ensures var t := Run(h, NOTHING, es);
            t.keys == map[] && (forall u :: u in t.tasks ==> t.tasks[u] == Finished) && Orphans(h, View(t)) == {ViewGrant(h, principal).At()}
  {
    var tasks: map<nat, Task> := map[0 := Finished, 2 := Finished];
    es := DeleteOvertakes(h, principal);
    assert ONE_DONE[1 := Applying(0, {ViewGrant(h, principal)})][2 := Finished] == tasks[1 := Applying(0, {ViewGrant(h, principal)})];
    es := GoApply(h, principal, es, map[], tasks, 1);
    assert View(Run(h, NOTHING, es)).entries == map[];
  }

  /* ---------- An associate inside a disassociate ---------- */

  lemma DisassociateArrives(h: Hash, principal: string) returns (es: seq<Event>)
    requires principal != "" && Arn.Canonicalize(principal) == Arn.Ok(principal)
    ensures OrderlyRun(h, NOTHING, es)
    ensures Run(h, NOTHING, es)
         == At(Viewing(h, principal, true, IDLE), 2, Listing(0, Revoke(Some(Unview(principal)))))
  {
    es := BindingDerived(h, principal);
    FindsPrincipal(principal);
    es := GoApply(h, principal, es, map[principal := 0], ONE_DONE, 1);
    var s := Viewing(h, principal, true, IDLE);
    assert ONE_DONE[1 := Finished] == IDLE && s.keys.Keys == {principal};
    es := GoArrive(h, es, s, DisassociateRequest(2, principal, VIEW_POLICY), Listing(0, Revoke(Some(Unview(principal)))));
  }

  const IDLE: map<nat, Task> := map[0 := Finished, 1 := Finished]

  function Emptied(principal: string): Task {
    Deleting(0, {}, Revoke(Some(Unview(principal))))
  }

  /** It deletes the grant; */
  lemma GrantDeleted(h: Hash, principal: string) returns (es: seq<Event>)
    requires principal != "" && Arn.Canonicalize(principal) == Arn.Ok(principal)
    ensures OrderlyRun(h, NOTHING, es) && Run(h, NOTHING, es) == At(Viewing(h, principal, false, IDLE), 2, Emptied(principal))
  {
    es := DisassociateArrives(h, principal);
    es := GoDerive(h, principal, es, Viewing(h, principal, true, IDLE), 2, Revoke(Some(Unview(principal))));
    es := GoDelete(h, principal, es, IDLE, 2, Revoke(Some(Unview(principal))));
  }

  /** ... then another request associates the policy again, with the scope it has, */
  lemma AssociatedAgain(h: Hash, principal: string) returns (es: seq<Event>)
    requires principal != "" && Arn.Canonicalize(principal) == Arn.Ok(principal)
    ensures OrderlyRun(h, NOTHING, es)
    ensures Run(h, NOTHING, es) == At(Viewing(h, principal, false, IDLE[2 := Emptied(principal)]), 3, Listing(0, Grant))
  {
    var s := Viewing(h, principal, false, IDLE[2 := Emptied(principal)]);
    es := GrantDeleted(h, principal);
    assert s == At(Viewing(h, principal, false, IDLE), 2, Emptied(principal));
    es := GoAssociate(h, principal, es, s, 3);
    es := GoUpsert(h, principal, es, s, 3);
  }

  lemma GoAssociate(h: Hash, principal: string, xs: seq<Event>, s: System, id: nat) returns (es: seq<Event>)
    requires principal != "" && Arn.Canonicalize(principal) == Arn.Ok(principal)
    requires s.keys == map[principal := 0] && |s.heap| > 0 && id !in s.tasks && Run(h, NOTHING, xs) == s
    ensures Run(h, NOTHING, es) == At(s, id, Upserting(0, principal, AssociatedPolicy(VIEW_POLICY, EVERYWHERE)))
    ensures OrderlyRun(h, NOTHING, xs) ==> OrderlyRun(h, NOTHING, es)
  {
    FindsPrincipal(principal);
    assert s.keys.Keys == {principal};
    es := GoArrive(h, xs, s, AssociateRequest(id, principal, VIEW_POLICY, None),
                   Upserting(0, principal, AssociatedPolicy(VIEW_POLICY, EVERYWHERE)));
  }

  /** Upserting what is there already, while nobody else is granting. */
  lemma GoUpsert(h: Hash, principal: string, xs: seq<Event>, s: System, id: nat) returns (es: seq<Event>)
    requires s.heap == [Viewer(principal)] && s.keys == map[principal := 0]
    requires forall u :: u in s.tasks ==> !IsGranting(s.tasks[u])
    requires Run(h, NOTHING, xs) == At(s, id, Upserting(0, principal, AssociatedPolicy(VIEW_POLICY, EVERYWHERE)))
    ensures Run(h, NOTHING, es) == At(s, id, Listing(0, Grant))
    ensures OrderlyRun(h, NOTHING, xs) ==> OrderlyRun(h, NOTHING, es)
  {
    var p := AssociatedPolicy(VIEW_POLICY, EVERYWHERE);
    var m := At(s, id, Upserting(0, principal, p));
    assert Upserted([p], p) == [p] && m.tasks[id := Listing(0, Grant)] == s.tasks[id := Listing(0, Grant)];
    assert Stored(m, m.tasks[id]).heap == [Viewer(principal)];
    es := Go(h, xs, m, Ok(id, ViewGrant(h, principal)), At(s, id, Listing(0, Grant)));
  }

  /** ... and applies its binding, */
  lemma GrantedAgain(h: Hash, principal: string) returns (es: seq<Event>)
    requires principal != "" && Arn.Canonicalize(principal) == Arn.Ok(principal)
    ensures OrderlyRun(h, NOTHING, es)
    ensures Run(h, NOTHING, es) == At(Viewing(h, principal, true, IDLE[2 := Emptied(principal)]), 3, Finished)
  {
    es := AssociatedAgain(h, principal);
    es := GoDerive(h, principal, es, Viewing(h, principal, false, IDLE[2 := Emptied(principal)]), 3, Grant);
    es := GoApply(h, principal, es, map[principal := 0], IDLE[2 := Emptied(principal)], 3);
  }

  /** The entry without policies, and the grant. */
  function Left(h: Hash, principal: string): System {
    Viewing(h, principal, true, IDLE[3 := Finished]).(heap := [Viewer(principal).(policies := [])])
  }

  /** Filtering the policy out. */
  lemma GoFilter(h: Hash, principal: string, xs: seq<Event>, s: System, id: nat) returns (es: seq<Event>)
    requires s.heap == [Viewer(principal)] && s.keys == map[principal := 0]
    requires forall u :: u in s.tasks ==> !IsGranting(s.tasks[u])
    requires Run(h, NOTHING, xs) == At(s, id, Filtering(Unview(principal)))
    ensures Run(h, NOTHING, es) == At(s.(heap := [Viewer(principal).(policies := [])]), id, Finding(principal))
    ensures OrderlyRun(h, NOTHING, xs) ==> OrderlyRun(h, NOTHING, es)
  {
    var p, m := AssociatedPolicy(VIEW_POLICY, EVERYWHERE), At(s, id, Filtering(Unview(principal)));
    assert Without([p], VIEW_POLICY) == [] && m.tasks[id := Finding(principal)] == s.tasks[id := Finding(principal)];
    assert Stored(m, m.tasks[id]).heap == [Viewer(principal).(policies := [])];
    es := Go(h, xs, m, Ok(id, ViewGrant(h, principal)), At(s.(heap := [Viewer(principal).(policies := [])]), id, Finding(principal)));
  }

  /** ... before the first request takes the policy out of the entry. */
  lemma PolicyFiltered(h: Hash, principal: string) returns (es: seq<Event>)
    requires principal != "" && Arn.Canonicalize(principal) == Arn.Ok(principal)
    ensures OrderlyRun(h, NOTHING, es) && Run(h, NOTHING, es) == At(Left(h, principal), 2, Finding(principal))
  {
    es := ReadyToFilter(h, principal);
    es := GoFilter(h, principal, es, Viewing(h, principal, true, IDLE[3 := Finished]), 2);
  }

  lemma SecondIsDone(h: Hash, principal: string)
    ensures At(Viewing(h, principal, true, IDLE[2 := Emptied(principal)]), 3, Finished)
         == At(Viewing(h, principal, true, IDLE[3 := Finished]), 2, Emptied(principal))
  {
    assert IDLE[2 := Emptied(principal)][3 := Finished] == IDLE[3 := Finished][2 := Emptied(principal)];
  }

  /** Having deleted everything, it goes on to filter. */
  lemma GoOn(h: Hash, principal: string, xs: seq<Event>, s: System, id: nat) returns (es: seq<Event>)
    requires |s.heap| > 0 && Run(h, NOTHING, xs) == At(s, id, Emptied(principal))
    ensures Run(h, NOTHING, es) == At(s, id, Filtering(Unview(principal)))
    ensures OrderlyRun(h, NOTHING, xs) ==> OrderlyRun(h, NOTHING, es)
  {
    es := GoTask(h, xs, s, id, Emptied(principal), ViewGrant(h, principal), Filtering(Unview(principal)));
  }

  lemma ReadyToFilter(h: Hash, principal: string) returns (es: seq<Event>)
    requires principal != "" && Arn.Canonicalize(principal) == Arn.Ok(principal)
    ensures OrderlyRun(h, NOTHING, es)
    ensures Run(h, NOTHING, es) == At(Viewing(h, principal, true, IDLE[3 := Finished]), 2, Filtering(Unview(principal)))
  {
    es := GrantedAgain(h, principal);
    SecondIsDone(h, principal);
    es := GoOn(h, principal, es, Viewing(h, principal, true, IDLE[3 := Finished]), 2);
  }

  /** An entry without policies has nothing to apply. */
  lemma GoNothing(h: Hash, xs: seq<Event>, s: System, id: nat, b: RBACBinding) returns (es: seq<Event>)
    requires |s.heap| == 1 && s.heap[0].policies == [] && Run(h, NOTHING, xs) == At(s, id, Listing(0, Grant))
    ensures Run(h, NOTHING, es) == At(s, id, Finished)
    ensures OrderlyRun(h, NOTHING, xs) ==> OrderlyRun(h, NOTHING, es)
  {
    es := GoTask(h, xs, s, id, Listing(0, Grant), b, Deriving(0, {}, Grant));
    assert Wanted(h, s.heap[0].principal, s.heap[0].Subject(), [], {}) == {};
    es := GoTask(h, es, s, id, Deriving(0, {}, Grant), b, Applying(0, {}));
    es := GoTask(h, es, s, id, Applying(0, {}), b, Finished);
  }

  /** A grant can outlive its policy although every call succeeds, no scope is narrowed and no request
      disturbs a record that another is granting from: an associate runs inside a disassociate. */
  lemma DisassociatedPolicyKeepsItsGrant(h: Hash, principal: string) returns (es: seq<Event>)
    requires principal != "" && Arn.Canonicalize(principal) == Arn.Ok(principal)
    ensures OrderlyRun(h, NOTHING, es) && Run(h, NOTHING, es) == At(Left(h, principal), 2, Finished)
    ensures ViewGrant(h, principal).At() in Orphans(h, View(Run(h, NOTHING, es)))
  {
    es := EntryFound(h, principal);
    es := GoNothing(h, es, Left(h, principal), 2, ViewGrant(h, principal));
    NothingLeftToGrant(h, principal);
  }

  lemma EntryFound(h: Hash, principal: string) returns (es: seq<Event>)
    requires principal != "" && Arn.Canonicalize(principal) == Arn.Ok(principal)
    ensures OrderlyRun(h, NOTHING, es) && Run(h, NOTHING, es) == At(Left(h, principal), 2, Listing(0, Grant))
  {
    es := PolicyFiltered(h, principal);
    es := GoFind(h, principal, es, Left(h, principal), 2);
  }

  lemma GoFind(h: Hash, principal: string, xs: seq<Event>, s: System, id: nat) returns (es: seq<Event>)
    requires principal != "" && Arn.Canonicalize(principal) == Arn.Ok(principal)
    requires s.keys == map[principal := 0] && |s.heap| > 0 && Run(h, NOTHING, xs) == At(s, id, Finding(principal))
    ensures Run(h, NOTHING, es) == At(s, id, Listing(0, Grant))
    ensures OrderlyRun(h, NOTHING, xs) ==> OrderlyRun(h, NOTHING, es)
  {
    FoundAgain(h, principal, At(s, id, Finding(principal)));
    es := GoTask(h, xs, s, id, Finding(principal), ViewGrant(h, principal), Listing(0, Grant));
  }

  lemma FoundAgain(h: Hash, principal: string, s: System)
    requires principal != "" && Arn.Canonicalize(principal) == Arn.Ok(principal)
    requires Sound(s) && s.keys == map[principal := 0]
    ensures Then(h, s, Finding(principal), ViewGrant(h, principal), true) == Listing(0, Grant)
  {
    FindsPrincipal(principal);
    assert s.keys.Keys == {principal};
  }

  lemma NothingLeftToGrant(h: Hash, principal: string)
    ensures ViewGrant(h, principal).At() in Orphans(h, View(At(Left(h, principal), 2, Finished)))
  {
    var v := View(At(Left(h, principal), 2, Finished));
    assert Derived(h, v.entries[principal], {}) == {};
    NotFromOneEntry(h, v, principal, ViewGrant(h, principal).At());
  }
}
