/** internal/api/access.go when requests for one principal take turns, while requests for different
    principals and changes of namespaces interleave in any way: then no grant outlives its policy. */
module AccessTurns {
  import opened Text
  import opened Model
  import opened Rbac
  import opened Kube
  import opened Access
  import opened AccessRuns
  import opened AccessSteps
  import Arn

  /* ---------- The condition, checked before a step ---------- */

  function KeyFor(e: Entry): string {
    CanonicalOr(e.principal)
  }

  /** The key of the principal that a request is about. */
  function KeyOf(heap: seq<Entry>, t: Task): Option<string> {
    if HasRecord(t) then (if t.record < |heap| then Some(KeyFor(heap[t.record])) else None)
    else
      match t
      case Storing(key, _) => Some(key)
      case Filtering(f) => Some(f.key)
      case Finding(principal) => Some(CanonicalOr(principal))
      case _ => None
  }

  predicate IsRequest(e: Event) {
    !e.Tick? && !e.NamespaceAdded? && !e.NamespaceRemoved?
  }

  /** No request arrives for a principal while another request for it is unfinished. */
  ghost predicate TakesTurns(s: System, e: Event) {
    IsRequest(e) && e.id !in s.tasks ==>
      forall t :: t in s.tasks ==> KeyOf(s.heap, s.tasks[t]) != Some(CanonicalOr(e.principal))
  }

  function AimOf(t: Task): Aim {
    match t
    case Listing(_, aim) => aim
    case Deriving(_, _, aim) => aim
    case Deleting(_, _, aim) => aim
    case _ => Grant
  }

  predicate IsRevoking(t: Task) {
    t.Filtering? || AimOf(t).Revoke?
  }

  /** The calls of a request that is deleting bindings succeed; the others may fail. */
  ghost predicate RevokesSucceed(s: System, e: Event) {
    e.Tick? && e.id in s.tasks && IsRevoking(s.tasks[e.id]) ==> e.ok
  }

  /** No scope is narrowed. */
  ghost predicate NarrowsNothing(s: System, e: Event)
    requires Sound(s)
  {
    e.Tick? && e.id in s.tasks && s.tasks[e.id].Upserting? && s.tasks[e.id].key in s.keys ==>
      var policies := s.heap[s.keys[s.tasks[e.id].key]].policies;
      Covers(policies, Upserted(policies, s.tasks[e.id].policy), s.namespaces)
  }

  ghost predicate InTurn(s: System, e: Event)
    requires Sound(s)
  {
    TakesTurns(s, e) && RevokesSucceed(s, e) && NarrowsNothing(s, e)
  }

  ghost predicate RunsInTurn(h: Hash, s: System, es: seq<Event>)
    requires Sound(s)
  {
    |es| == 0 || (RunsInTurn(h, s, es[..|es| - 1]) && InTurn(Run(h, s, es[..|es| - 1]), es[|es| - 1]))
  }

  /* ---------- Where each request stands ---------- */

  /** A request that is deleting a dropped entry's bindings is at a record that no key leads to; any
      other is at the record that its principal's key leads to, if it is at one. */
  ghost predicate Stands(s: System, t: Task)
    requires Sound(s) && Points(t, |s.heap|)
  {
    if HasRecord(t) then
      var key := KeyFor(s.heap[t.record]);
      match AimOf(t)
      case Revoke(None) => key !in s.keys
      case Revoke(Some(f)) => Holds(s, key, t.record) && f.key == key && CanonicalOr(f.principal) == key
      case Grant => Holds(s, key, t.record) && (t.Upserting? || t.Dropping? ==> t.key == key)
    else
      match t
      case Storing(key, e) => key !in s.keys && Arn.Canonicalize(e.principal) == Arn.Ok(key)
      case Filtering(f) => f.key in s.keys && CanonicalOr(f.principal) == f.key
      case Finding(principal) => CanonicalOr(principal) in s.keys
      case _ => true
  }

  predicate Holds(s: System, key: string, r: nat) {
    key in s.keys && s.keys[key] == r
  }

  ghost predicate Tidy(s: System)
    requires Sound(s)
  {
    KeysFitRecords(s) && AllStand(s) && KeysApart(s)
  }

  ghost predicate KeysFitRecords(s: System)
    requires Sound(s)
  {
    && (forall r :: 0 <= r < |s.heap| ==> Arn.Canonicalize(s.heap[r].principal).Ok?)
    && (forall k :: k in s.keys ==> KeyFor(s.heap[s.keys[k]]) == k)
  }

  ghost predicate AllStand(s: System)
    requires Sound(s)
  {
    forall t :: t in s.tasks ==> Points(s.tasks[t], |s.heap|) && Stands(s, s.tasks[t])
  }

  /** No two requests are for one principal. */
  ghost predicate KeysApart(s: System) {
    forall t, u :: t in s.tasks && u in s.tasks && t != u && KeyOf(s.heap, s.tasks[t]).Some? ==>
      KeyOf(s.heap, s.tasks[t]) != KeyOf(s.heap, s.tasks[u])
  }

  /** Keys are canonical, so a lookup finds the canonical key or nothing. */
  lemma LookupIsCanonical(s: System, principal: string)
    requires Sound(s) && Tidy(s)
    ensures LookupKey(s.keys.Keys, principal) == if CanonicalOr(principal) in s.keys then Some(CanonicalOr(principal)) else None
  {
    if CanonicalOr(principal) !in s.keys && principal in s.keys {
      Arn.CanonicalizeIdempotent(s.heap[s.keys[principal]].principal);
    }
  }

  /** A request stays at its record until it goes on to filter it, or is done. */
  lemma ThenRecord(h: Hash, s: System, t: Task, pick: RBACBinding, ok: bool)
    requires Sound(s) && Points(t, |s.heap|) && HasRecord(t)
    ensures var u := Then(h, s, t, pick, ok);
            if HasRecord(u) then u.record == t.record
            else u == Finished || (AimOf(t).Revoke? && AimOf(t).filter.Some? && u == Filtering(AimOf(t).filter.value))
  {
  }

  /** A step goes on with the request's own principal. */
  lemma KeyStays(h: Hash, s: System, t: Task, pick: RBACBinding, ok: bool)
    requires Sound(s) && Tidy(s) && Points(t, |s.heap|) && Stands(s, t)
    ensures var u := Then(h, s, t, pick, ok); KeyOf(s.heap, u).Some? ==> KeyOf(s.heap, u) == KeyOf(s.heap, t)
  {
    if HasRecord(t) {
      ThenRecord(h, s, t, pick, ok);
    } else if t.Finding? {
      FoundKey(h, s, t, pick, ok);
    }
  }

  lemma FoundKey(h: Hash, s: System, t: Task, pick: RBACBinding, ok: bool)
    requires Sound(s) && Tidy(s) && t.Finding?
    ensures var u := Then(h, s, t, pick, ok);
            u == Finished || (u.Listing? && u.aim == Grant && Holds(s, CanonicalOr(t.principal), u.record))
  {
    LookupIsCanonical(s, t.principal);
  }

  lemma KeyOfKept(s: System, t: Task, u: Task)
    requires Sound(s) && Points(u, |s.heap|)
    ensures KeyOf(Stored(s, t).heap, u) == KeyOf(s.heap, u)
  {
    if HasRecord(u) {
      IdentitiesKept(s, t, u.record);
    }
  }

  lemma OwnStands(h: Hash, s: System, t: Task, pick: RBACBinding, ok: bool)
    requires Sound(s) && Tidy(s) && Points(t, |s.heap|) && Stands(s, t)
    ensures var s', u := Stored(s, t), Then(h, s, t, pick, ok); Sound(s') && Points(u, |s'.heap|) && Stands(s', u)
  {
    StoreIsSound(s, t);
    ThenPoints(h, s, t, pick, ok);
    if t.Upserting? || t.Dropping? || t.Filtering? || t.Storing? {
      StoreStands(h, s, t, pick, ok);
    } else if t.Finding? {
      LookupIsCanonical(s, t.principal);
    } else {
      CallStands(h, s, t, pick, ok);
    }
  }

  lemma StoreStands(h: Hash, s: System, t: Task, pick: RBACBinding, ok: bool)
    requires Sound(s) && Tidy(s) && Points(t, |s.heap|) && Stands(s, t)
    requires t.Upserting? || t.Dropping? || t.Filtering? || t.Storing?
    requires Sound(Stored(s, t)) && Points(Then(h, s, t, pick, ok), |Stored(s, t).heap|)
    ensures Stands(Stored(s, t), Then(h, s, t, pick, ok))
  {
    if HasRecord(t) {
      IdentitiesKept(s, t, t.record);
    }
  }

  /** A request that does not access the store stays where it stands. */
  lemma CallStands(h: Hash, s: System, t: Task, pick: RBACBinding, ok: bool)
    requires Sound(s) && Points(t, |s.heap|) && Stands(s, t) && Points(Then(h, s, t, pick, ok), |s.heap|)
    requires t.Finished? || (HasRecord(t) && !t.Upserting? && !t.Dropping?)
    ensures Stored(s, t) == s && Stands(s, Then(h, s, t, pick, ok))
  {
    var u := Then(h, s, t, pick, ok);
    assert HasRecord(u) ==> u.record == t.record && !u.Upserting? && !u.Dropping?;
    assert HasRecord(u) ==> AimOf(u) == AimOf(t);
  }

  lemma OtherStands(s: System, t: Task, u: Task)
    requires Sound(s) && Tidy(s) && Points(t, |s.heap|) && Stands(s, t) && Points(u, |s.heap|) && Stands(s, u)
    requires KeyOf(s.heap, u).Some? ==> KeyOf(s.heap, t) != KeyOf(s.heap, u)
    ensures Sound(Stored(s, t)) && Points(u, |Stored(s, t).heap|) && Stands(Stored(s, t), u)
  {
    StoreIsSound(s, t);
    StoredSound(s, t);
    if HasRecord(u) {
      IdentitiesKept(s, t, u.record);
    }
  }

  lemma StoredKeysFit(s: System, t: Task)
    requires Sound(s) && KeysFitRecords(s) && Points(t, |s.heap|) && Stands(s, t)
    ensures Sound(Stored(s, t)) && KeysFitRecords(Stored(s, t))
  {
    StoreIsSound(s, t);
    var s' := Stored(s, t);
    forall r | 0 <= r < |s'.heap| ensures Arn.Canonicalize(s'.heap[r].principal).Ok? {
      if r < |s.heap| {
        IdentitiesKept(s, t, r);
      }
    }
    forall k | k in s'.keys ensures KeyFor(s'.heap[s'.keys[k]]) == k {
      if s'.keys[k] < |s.heap| {
        IdentitiesKept(s, t, s'.keys[k]);
      }
    }
  }

  /** Whether a request stands well depends on the store alone. */
  lemma StandsElsewhere(s: System, s': System, t: Task)
    requires Sound(s) && Sound(s') && s.heap == s'.heap && s.keys == s'.keys && Points(t, |s.heap|) && Stands(s, t)
    ensures Stands(s', t)
  {
  }

  lemma TickTidy(h: Hash, s: System, e: Event)
    requires Sound(s) && Tidy(s) && e.Tick? && e.id in s.tasks
    ensures Sound(NextStep(h, s, e)) && Tidy(NextStep(h, s, e))
  {
    NextSound(h, s, e);
    TickKeysFit(h, s, e);
    TickStands(h, s, e);
    TickKeysApart(h, s, e);
  }

  lemma TickKeysFit(h: Hash, s: System, e: Event)
    requires Sound(s) && Sound(NextStep(h, s, e)) && Tidy(s) && e.Tick? && e.id in s.tasks
    ensures KeysFitRecords(NextStep(h, s, e))
  {
    var t := s.tasks[e.id];
    assert Points(t, |s.heap|) && Stands(s, t);
    StoredKeysFit(s, t);
  }

  lemma TickStands(h: Hash, s: System, e: Event)
    requires Sound(s) && Sound(NextStep(h, s, e)) && Tidy(s) && e.Tick? && e.id in s.tasks
    ensures AllStand(NextStep(h, s, e))
  {
    var s', t := NextStep(h, s, e), s.tasks[e.id];
    assert Points(t, |s.heap|) && Stands(s, t);
    OwnStands(h, s, t, e.pick, e.ok);
    StandsElsewhere(Stored(s, t), s', s'.tasks[e.id]);
    forall u | u in s'.tasks ensures Points(s'.tasks[u], |s'.heap|) && Stands(s', s'.tasks[u]) {
      if u != e.id {
        OtherTidy(h, s, e, u);
      }
    }
  }

  lemma TickKeysApart(h: Hash, s: System, e: Event)
    requires Sound(s) && Sound(NextStep(h, s, e)) && Tidy(s) && e.Tick? && e.id in s.tasks
    ensures KeysApart(NextStep(h, s, e))
  {
    var s', t := NextStep(h, s, e), s.tasks[e.id];
    assert Points(t, |s.heap|) && Stands(s, t);
    KeyStays(h, s, t, e.pick, e.ok);
    ThenPoints(h, s, t, e.pick, e.ok);
    KeyOfKept(s, t, s'.tasks[e.id]);
    forall u | u in s.tasks && u != e.id ensures KeyOf(s'.heap, s'.tasks[u]) == KeyOf(s.heap, s.tasks[u]) {
      OtherTidy(h, s, e, u);
    }
    KeysStayApart(s, s', e.id);
  }

  lemma OtherTidy(h: Hash, s: System, e: Event, u: nat)
    requires Sound(s) && Sound(NextStep(h, s, e)) && Tidy(s) && e.Tick? && e.id in s.tasks && u in s.tasks && u != e.id
    ensures var s' := NextStep(h, s, e);
            && u in s'.tasks && s'.tasks[u] == s.tasks[u] && Points(s.tasks[u], |s'.heap|) && Stands(s', s.tasks[u])
            && KeyOf(s'.heap, s.tasks[u]) == KeyOf(s.heap, s.tasks[u])
  {
    var s', t := NextStep(h, s, e), s.tasks[e.id];
    assert Points(t, |s.heap|) && Stands(s, t);
    assert Points(s.tasks[u], |s.heap|) && Stands(s, s.tasks[u]);
    OtherStands(s, t, s.tasks[u]);
    KeyOfKept(s, t, s.tasks[u]);
    StandsElsewhere(Stored(s, t), s', s.tasks[u]);
  }

  lemma KeysStayApart(s: System, s': System, id: nat)
    requires KeysApart(s) && id in s.tasks && s'.tasks.Keys == s.tasks.Keys
    requires forall u :: u in s.tasks && u != id ==> KeyOf(s'.heap, s'.tasks[u]) == KeyOf(s.heap, s.tasks[u])
    requires KeyOf(s'.heap, s'.tasks[id]).Some? ==> KeyOf(s'.heap, s'.tasks[id]) == KeyOf(s.heap, s.tasks[id])
    ensures KeysApart(s')
  {
  }

  lemma ArrivalStands(s: System, e: Event)
    requires Sound(s) && Tidy(s) && Arrive(s, e).Some?
    ensures IsRequest(e)
    ensures var t := Arrive(s, e).value;
            Points(t, |s.heap|) && Stands(s, t) && KeyOf(s.heap, t) == Some(CanonicalOr(e.principal))
  {
    LookupIsCanonical(s, e.principal);
  }

  lemma ArrivalTidy(h: Hash, s: System, e: Event)
    requires Sound(s) && Tidy(s) && TakesTurns(s, e) && Arrive(s, e).Some? && e.id !in s.tasks
    ensures Sound(NextStep(h, s, e)) && Tidy(NextStep(h, s, e))
  {
    NextSound(h, s, e);
    ArrivalStands(s, e);
    AddTidy(s, NextStep(h, s, e), e.id, Arrive(s, e).value);
  }

  /** One more request, which stands well and is for another principal than the others. */
  lemma AddTidy(s: System, s': System, id: nat, t: Task)
    requires Sound(s) && Sound(s') && Tidy(s) && id !in s.tasks && s' == s.(tasks := s.tasks[id := t])
    requires Points(t, |s.heap|) && Stands(s, t) && KeyOf(s.heap, t).Some?
    requires forall u :: u in s.tasks ==> KeyOf(s.heap, s.tasks[u]) != KeyOf(s.heap, t)
    ensures Tidy(s')
  {
    forall u | u in s'.tasks ensures Points(s'.tasks[u], |s'.heap|) && Stands(s', s'.tasks[u]) {
      assert u != id ==> Points(s.tasks[u], |s.heap|) && Stands(s, s.tasks[u]);
      StandsElsewhere(s, s', s'.tasks[u]);
    }
  }

  /** Only the store, and which requests there are, matters. */
  lemma TidyElsewhere(s: System, s': System)
    requires Sound(s) && Sound(s') && Tidy(s) && s'.heap == s.heap && s'.keys == s.keys && s'.tasks == s.tasks
    ensures Tidy(s')
  {
    forall u | u in s'.tasks ensures Points(s'.tasks[u], |s'.heap|) && Stands(s', s'.tasks[u]) {
      assert Points(s.tasks[u], |s.heap|) && Stands(s, s.tasks[u]);
      StandsElsewhere(s, s', s'.tasks[u]);
    }
  }

  lemma NextTidy(h: Hash, s: System, e: Event)
    requires Sound(s) && Tidy(s) && TakesTurns(s, e)
    ensures Sound(NextStep(h, s, e)) && Tidy(NextStep(h, s, e))
  {
    if e.Tick? && e.id in s.tasks {
      TickTidy(h, s, e);
    } else if IsRequest(e) && e.id !in s.tasks && Arrive(s, e).Some? {
      ArrivalTidy(h, s, e);
    } else {
      NextSound(h, s, e);
      StoreUntouched(h, s, e);
      TidyElsewhere(s, NextStep(h, s, e));
    }
  }

  lemma StoreUntouched(h: Hash, s: System, e: Event)
    requires Sound(s) && !(e.Tick? && e.id in s.tasks) && !(IsRequest(e) && e.id !in s.tasks && Arrive(s, e).Some?)
    ensures var s' := NextStep(h, s, e); s'.heap == s.heap && s'.keys == s.keys && s'.tasks == s.tasks
  {
  }

  /** Requests that take turns disturb no record another is granting from. */
  lemma TurnsAreOrderly(s: System, e: Event)
    requires Sound(s) && Tidy(s)
    ensures Orderly(s, e)
  {
    if e.Tick? && e.id in s.tasks {
      var t := s.tasks[e.id];
      assert Points(t, |s.heap|) && Stands(s, t);
      if Disturbed(s, t).Some? {
        var r := Disturbed(s, t).value;
        forall u | u in s.tasks && u != e.id && IsGranting(s.tasks[u]) ensures s.tasks[u].record != r {
          assert Points(s.tasks[u], |s.heap|);
          assert KeyOf(s.heap, t).Some? && KeyOf(s.heap, t) != KeyOf(s.heap, s.tasks[u]);
        }
      }
    }
  }

  /* ---------- What is still going to be deleted ---------- */

  /** The record whose bindings a revoking request deletes. */
  function Revoking(s: System, t: Task): Option<nat> {
    if !IsRevoking(t) then None
    else if HasRecord(t) then Some(t.record)
    else if t.filter.key in s.keys then Some(s.keys[t.filter.key]) else None
  }

  /** It has not yet dealt with the binding. */
  ghost predicate Reaches(h: Hash, s: System, t: Task, b: RBACBinding) {
    match t
    case Listing(_, _) => true
    case Deriving(r, names, _) =>
      r < |s.heap| && b in Wanted(h, s.heap[r].principal, s.heap[r].Subject(), s.heap[r].policies, names)
    case Deleting(_, todo, _) => b in todo
    case _ => false
  }

  /** A binding of a record accounts for an object if the record is in the store, or is being deleted,
      and no request that deletes its bindings has dealt with this one. */
  ghost predicate Owes(h: Hash, s: System, r: nat, b: RBACBinding) {
    && r < |s.heap| && b in Derived(h, s.heap[r], s.namespaces)
    && (Held(s, r) || BeingRevoked(s, r))
    && NotPassed(h, s, r, b)
  }

  ghost predicate BeingRevoked(s: System, r: nat) {
    exists t :: t in s.tasks && Revoking(s, s.tasks[t]) == Some(r)
  }

  ghost predicate NotPassed(h: Hash, s: System, r: nat, b: RBACBinding) {
    forall t :: t in s.tasks && Revoking(s, s.tasks[t]) == Some(r) ==> Reaches(h, s, s.tasks[t], b)
  }

  ghost predicate AccountsFor(h: Hash, s: System, r: nat, b: RBACBinding, p: Path, o: Obj) {
    Owes(h, s, r, b) && b.At() == p && Live(b) == o
  }

  ghost predicate Accounted(h: Hash, s: System) {
    forall p :: p in s.objects && s.objects[p].owned ==> exists r, b :: AccountsFor(h, s, r, b, p, s.objects[p])
  }

  /** A request is at one record, its principal's; two requests are never at the same one. */
  lemma OneAtARecord(s: System, t: nat, u: nat, r: nat)
    requires Sound(s) && Tidy(s) && t in s.tasks && u in s.tasks && r < |s.heap|
    requires KeyOf(s.heap, s.tasks[t]) == Some(KeyFor(s.heap[r])) && Revoking(s, s.tasks[u]) == Some(r)
    ensures t == u
  {
    assert Points(s.tasks[u], |s.heap|) && Stands(s, s.tasks[u]);
    assert KeyOf(s.heap, s.tasks[u]) == Some(KeyFor(s.heap[r]));
  }

  /** When nothing is being deleted any more, what is accounted for is justified. */
  lemma AccountedIsJustified(h: Hash, s: System)
    requires Sound(s) && Accounted(h, s) && forall t :: t in s.tasks ==> !IsRevoking(s.tasks[t])
    ensures Orphans(h, View(s)) == {}
  {
    forall p | p in s.objects && s.objects[p].owned ensures Justified(h, View(s), p) {
      var r, b :| AccountsFor(h, s, r, b, p, s.objects[p]);
      var k :| k in s.keys && s.keys[k] == r;
      assert Current(h, s, b);
      JustifiedIsCurrent(h, s, p);
    }
  }

  /* ---------- Every step keeps the account ---------- */

  lemma RevokingKey(s: System, t: Task, r: nat)
    requires Sound(s) && Tidy(s) && Points(t, |s.heap|) && Stands(s, t) && Revoking(s, t) == Some(r)
    ensures r < |s.heap| && KeyOf(s.heap, t) == Some(KeyFor(s.heap[r]))
  {
  }

  /** An access of the store is to the request's own key, and to the record there. */
  lemma KeysElsewhere(s: System, t: Task, k: string)
    requires Sound(s) && Points(t, |s.heap|) && Stands(s, t) && KeyOf(s.heap, t) != Some(k)
    ensures k in Stored(s, t).keys <==> k in s.keys
    ensures k in s.keys ==> Stored(s, t).keys[k] == s.keys[k]
  {
  }

  lemma NotDisturbed(s: System, t: Task, r: nat)
    requires Sound(s) && Tidy(s) && Points(t, |s.heap|) && Stands(s, t) && r < |s.heap|
    requires KeyOf(s.heap, t) != Some(KeyFor(s.heap[r]))
    ensures Disturbed(s, t) != Some(r)
  {
  }

  lemma OwnElsewhere(h: Hash, s: System, e: Event, r: nat)
    requires Sound(s) && Tidy(s) && e.Tick? && e.id in s.tasks && r < |s.heap|
    requires KeyOf(s.heap, s.tasks[e.id]) != Some(KeyFor(s.heap[r]))
    ensures Revoking(NextStep(h, s, e), NextStep(h, s, e).tasks[e.id]) != Some(r)
  {
    var s', t := NextStep(h, s, e), s.tasks[e.id];
    var own := s'.tasks[e.id];
    assert Points(t, |s.heap|) && Stands(s, t);
    TickTidy(h, s, e);
    KeyStays(h, s, t, e.pick, e.ok);
    ThenPoints(h, s, t, e.pick, e.ok);
    KeyOfKept(s, t, own);
    IdentitiesKept(s, t, r);
    assert Points(own, |s'.heap|) && Stands(s', own);
    if Revoking(s', own) == Some(r) {
      RevokingKey(s', own, r);
    }
  }

  lemma RevokingKept(h: Hash, s: System, e: Event, u: nat, r: nat)
    requires Sound(s) && Tidy(s) && e.Tick? && e.id in s.tasks && u in s.tasks && u != e.id
    ensures u in NextStep(h, s, e).tasks && NextStep(h, s, e).tasks[u] == s.tasks[u]
    ensures Revoking(NextStep(h, s, e), s.tasks[u]) == Revoking(s, s.tasks[u])
  {
    var t := s.tasks[e.id];
    assert Points(t, |s.heap|) && Stands(s, t);
    assert Points(s.tasks[u], |s.heap|) && Stands(s, s.tasks[u]);
    if s.tasks[u].Filtering? {
      assert KeyOf(s.heap, s.tasks[u]) != KeyOf(s.heap, t);
      KeysElsewhere(s, t, s.tasks[u].filter.key);
    }
  }

  lemma ElsewhereNotPassed(h: Hash, s: System, e: Event, r: nat, b: RBACBinding)
    requires Sound(s) && Tidy(s) && e.Tick? && e.id in s.tasks && r < |s.heap| && NotPassed(h, s, r, b)
    requires KeyOf(s.heap, s.tasks[e.id]) != Some(KeyFor(s.heap[r]))
    requires r < |NextStep(h, s, e).heap| && NextStep(h, s, e).heap[r] == s.heap[r]
    ensures NotPassed(h, NextStep(h, s, e), r, b)
  {
    var s' := NextStep(h, s, e);
    OwnElsewhere(h, s, e, r);
    forall u | u in s'.tasks && Revoking(s', s'.tasks[u]) == Some(r) ensures Reaches(h, s', s'.tasks[u], b) {
      RevokingKept(h, s, e, u, r);
      SameReach(h, s, s', s.tasks[u], r, b);
    }
  }

  /** What a request reaches depends on its record alone. */
  lemma SameReach(h: Hash, s: System, s': System, t: Task, r: nat, b: RBACBinding)
    requires Revoking(s, t) == Some(r) && r < |s.heap| && r < |s'.heap| && s'.heap[r] == s.heap[r]
    ensures Reaches(h, s, t, b) ==> Reaches(h, s', t, b)
  {
  }

  /** A request that is at another record does not change what a record owes. */
  lemma ElsewhereOwes(h: Hash, s: System, e: Event, r: nat, b: RBACBinding)
    requires Sound(s) && Tidy(s) && e.Tick? && e.id in s.tasks && Owes(h, s, r, b)
    requires KeyOf(s.heap, s.tasks[e.id]) != Some(KeyFor(s.heap[r]))
    ensures Owes(h, NextStep(h, s, e), r, b)
  {
    RecordElsewhere(h, s, e, r);
    ElsewhereNotPassed(h, s, e, r, b);
    StillBeingRevoked(h, s, e, r);
  }

  lemma RecordElsewhere(h: Hash, s: System, e: Event, r: nat)
    requires Sound(s) && Tidy(s) && e.Tick? && e.id in s.tasks && r < |s.heap|
    requires KeyOf(s.heap, s.tasks[e.id]) != Some(KeyFor(s.heap[r]))
    ensures var s' := NextStep(h, s, e);
            && r < |s'.heap| && s'.heap[r] == s.heap[r] && s'.namespaces == s.namespaces
            && (Held(s, r) ==> Held(s', r))
  {
    var t := s.tasks[e.id];
    assert Points(t, |s.heap|) && Stands(s, t);
    NotDisturbed(s, t, r);
    Undisturbed(s, t, r);
    if Held(s, r) {
      HeldKept(h, s, e, r);
    }
  }

  lemma HeldKept(h: Hash, s: System, e: Event, r: nat)
    requires Sound(s) && e.Tick? && e.id in s.tasks && Held(Stored(s, s.tasks[e.id]), r)
    ensures Held(NextStep(h, s, e), r)
  {
    var k :| k in Stored(s, s.tasks[e.id]).keys && Stored(s, s.tasks[e.id]).keys[k] == r;
    assert k in NextStep(h, s, e).keys;
  }

  lemma StillBeingRevoked(h: Hash, s: System, e: Event, r: nat)
    requires Sound(s) && Tidy(s) && e.Tick? && e.id in s.tasks && r < |s.heap|
    requires KeyOf(s.heap, s.tasks[e.id]) != Some(KeyFor(s.heap[r]))
    ensures BeingRevoked(s, r) ==> BeingRevoked(NextStep(h, s, e), r)
  {
    if BeingRevoked(s, r) {
      var u :| u in s.tasks && Revoking(s, s.tasks[u]) == Some(r);
      assert Points(s.tasks[u], |s.heap|) && Stands(s, s.tasks[u]);
      RevokingKey(s, s.tasks[u], r);
      RevokingKept(h, s, e, u, r);
    }
  }

  /** The record that owes something to a request's principal is the one the request is at. */
  lemma OwnRecord(s: System, id: nat, r: nat)
    requires Sound(s) && Tidy(s) && id in s.tasks && r < |s.heap|
    requires KeyOf(s.heap, s.tasks[id]) == Some(KeyFor(s.heap[r])) && (Held(s, r) || BeingRevoked(s, r))
    ensures !s.tasks[id].Storing? && (HasRecord(s.tasks[id]) ==> s.tasks[id].record == r)
    ensures IsRevoking(s.tasks[id]) ==> Revoking(s, s.tasks[id]) == Some(r)
    ensures !IsRevoking(s.tasks[id]) ==> Holds(s, KeyFor(s.heap[r]), r) && Held(s, r)
  {
    var t := s.tasks[id];
    assert Points(t, |s.heap|) && Stands(s, t);
    if Held(s, r) {
      var k :| k in s.keys && s.keys[k] == r;
      assert KeyFor(s.heap[s.keys[k]]) == k;
    } else {
      var u :| u in s.tasks && Revoking(s, s.tasks[u]) == Some(r);
      OneAtARecord(s, id, u, r);
    }
  }

  /** No other request can pass the binding over. */
  lemma OwnNotPassed(h: Hash, s: System, e: Event, r: nat, b: RBACBinding)
    requires Sound(s) && Tidy(s) && e.Tick? && e.id in s.tasks && r < |s.heap|
    requires KeyOf(s.heap, s.tasks[e.id]) == Some(KeyFor(s.heap[r]))
    requires var s' := NextStep(h, s, e); Revoking(s', s'.tasks[e.id]) == Some(r) ==> Reaches(h, s', s'.tasks[e.id], b)
    ensures NotPassed(h, NextStep(h, s, e), r, b)
  {
    var s' := NextStep(h, s, e);
    forall u | u in s'.tasks && Revoking(s', s'.tasks[u]) == Some(r) ensures Reaches(h, s', s'.tasks[u], b) {
      if u != e.id {
        RevokingKept(h, s, e, u, r);
        OneAtARecord(s, e.id, u, r);
      }
    }
  }

  lemma UpsertNext(h: Hash, s: System, e: Event, r: nat)
    requires Sound(s) && e.Tick? && e.id in s.tasks && s.tasks[e.id].Upserting? && Holds(s, s.tasks[e.id].key, r)
    requires Points(s.tasks[e.id], |s.heap|) && r == s.tasks[e.id].record
    ensures var s', t := NextStep(h, s, e), s.tasks[e.id];
            && s'.heap == s.heap[r := s.heap[r].(policies := Upserted(s.heap[r].policies, t.policy))]
            && s'.keys == s.keys && s'.namespaces == s.namespaces && s'.tasks[e.id] == Listing(r, Grant)
  {
  }

  /** Upserting without narrowing: the entry goes on implying what it implied. */
  lemma UpsertOwes(h: Hash, s: System, e: Event, r: nat, b: RBACBinding)
    requires Sound(s) && Tidy(s) && e.Tick? && e.id in s.tasks && NarrowsNothing(s, e) && s.tasks[e.id].Upserting?
    requires Owes(h, s, r, b) && KeyOf(s.heap, s.tasks[e.id]) == Some(KeyFor(s.heap[r]))
    ensures Owes(h, NextStep(h, s, e), r, b)
  {
    OwnRecord(s, e.id, r);
    assert Points(s.tasks[e.id], |s.heap|) && Stands(s, s.tasks[e.id]);
    UpsertNext(h, s, e, r);
    var s' := NextStep(h, s, e);
    CoversPlaces(h, s.heap[r], s'.heap[r], s.namespaces);
    OwnNotPassed(h, s, e, r, b);
    assert Held(s', r) by {
      var k :| k in s.keys && s.keys[k] == r;
      assert k in s'.keys && s'.keys[k] == r;
    }
  }

  lemma DropNext(h: Hash, s: System, e: Event)
    requires Sound(s) && e.Tick? && e.id in s.tasks && s.tasks[e.id].Dropping?
    ensures var s' := NextStep(h, s, e);
            s'.heap == s.heap && s'.namespaces == s.namespaces && s'.tasks[e.id] == Listing(s.tasks[e.id].record, Revoke(None))
  {
  }

  /** Dropping: from here on the request is going to delete the entry's bindings. */
  lemma DropOwes(h: Hash, s: System, e: Event, r: nat, b: RBACBinding)
    requires Sound(s) && Tidy(s) && e.Tick? && e.id in s.tasks && s.tasks[e.id].Dropping?
    requires Owes(h, s, r, b) && KeyOf(s.heap, s.tasks[e.id]) == Some(KeyFor(s.heap[r]))
    ensures Owes(h, NextStep(h, s, e), r, b)
  {
    OwnRecord(s, e.id, r);
    DropNext(h, s, e);
    OwnNotPassed(h, s, e, r, b);
    NowRevoking(NextStep(h, s, e), e.id, r);
  }

  lemma NowRevoking(s: System, id: nat, r: nat)
    requires id in s.tasks && s.tasks[id] == Listing(r, Revoke(None))
    ensures BeingRevoked(s, r)
  {
    assert Revoking(s, s.tasks[id]) == Some(r);
  }

  /** Deleting: an object that is still there has not been dealt with. */
  lemma RevokeOwes(h: Hash, s: System, e: Event, r: nat, b: RBACBinding)
    requires Sound(s) && Tidy(s) && e.Tick? && e.ok && e.id in s.tasks && IsRevoking(s.tasks[e.id])
    requires Owes(h, s, r, b) && KeyOf(s.heap, s.tasks[e.id]) == Some(KeyFor(s.heap[r]))
    requires b.At() in NextStep(h, s, e).objects
    ensures Owes(h, NextStep(h, s, e), r, b)
  {
    var s', t := NextStep(h, s, e), s.tasks[e.id];
    assert Points(t, |s.heap|) && Stands(s, t);
    OwnRecord(s, e.id, r);
    assert Reaches(h, s, t, b);
    RevokeReaches(h, s, e, r, b);
    OwnNotPassed(h, s, e, r, b);
    assert Revoking(s', s'.tasks[e.id]) == Some(r);
  }

  lemma RevokeReaches(h: Hash, s: System, e: Event, r: nat, b: RBACBinding)
    requires Sound(s) && e.Tick? && e.ok && e.id in s.tasks && Points(s.tasks[e.id], |s.heap|)
    requires Revoking(s, s.tasks[e.id]) == Some(r) && r < |s.heap| && Reaches(h, s, s.tasks[e.id], b)
    requires b in Derived(h, s.heap[r], s.namespaces) && b.At() in NextStep(h, s, e).objects
    ensures var s' := NextStep(h, s, e);
            s'.heap == s.heap && s'.keys == s.keys && s'.namespaces == s.namespaces
            && Revoking(s', s'.tasks[e.id]) == Some(r) && Reaches(h, s', s'.tasks[e.id], b)
  {
  }

  lemma StaysGranting(h: Hash, s: System, t: Task, pick: RBACBinding, ok: bool)
    requires Sound(s) && Points(t, |s.heap|) && !IsRevoking(t) && !t.Dropping?
    ensures !IsRevoking(Then(h, s, t, pick, ok))
  {
  }

  lemma GrantNext(h: Hash, s: System, e: Event)
    requires Sound(s) && e.Tick? && e.id in s.tasks && !IsRevoking(s.tasks[e.id])
    requires var t := s.tasks[e.id]; !t.Upserting? && !t.Dropping? && !t.Storing?
    ensures var s' := NextStep(h, s, e);
            s'.heap == s.heap && s'.keys == s.keys && s'.namespaces == s.namespaces && !IsRevoking(s'.tasks[e.id])
  {
    assert Points(s.tasks[e.id], |s.heap|);
    StaysGranting(h, s, s.tasks[e.id], e.pick, e.ok);
    assert Stored(s, s.tasks[e.id]) == s;
  }

  /** Any other step leaves the record in the store as it is. */
  lemma GrantOwes(h: Hash, s: System, e: Event, r: nat, b: RBACBinding)
    requires Sound(s) && Tidy(s) && e.Tick? && e.id in s.tasks && !IsRevoking(s.tasks[e.id])
    requires !s.tasks[e.id].Upserting? && !s.tasks[e.id].Dropping?
    requires Owes(h, s, r, b) && KeyOf(s.heap, s.tasks[e.id]) == Some(KeyFor(s.heap[r]))
    ensures Owes(h, NextStep(h, s, e), r, b)
  {
    OwnRecord(s, e.id, r);
    GrantNext(h, s, e);
    OwnNotPassed(h, s, e, r, b);
    var s' := NextStep(h, s, e);
    var k :| k in s.keys && s.keys[k] == r;
    assert k in s'.keys && s'.keys[k] == r;
  }

  lemma TickOwes(h: Hash, s: System, e: Event, r: nat, b: RBACBinding)
    requires Sound(s) && Tidy(s) && e.Tick? && e.id in s.tasks && InTurn(s, e) && Owes(h, s, r, b)
    requires b.At() in NextStep(h, s, e).objects
    ensures Owes(h, NextStep(h, s, e), r, b)
  {
    var t := s.tasks[e.id];
    if KeyOf(s.heap, t) != Some(KeyFor(s.heap[r])) {
      ElsewhereOwes(h, s, e, r, b);
    } else if IsRevoking(t) {
      RevokeOwes(h, s, e, r, b);
    } else if t.Upserting? {
      UpsertOwes(h, s, e, r, b);
    } else if t.Dropping? {
      DropOwes(h, s, e, r, b);
    } else {
      GrantOwes(h, s, e, r, b);
    }
  }

  /** What a call writes is a binding that its record, which the store holds, implies. */
  lemma WrittenOwes(h: Hash, s: System, e: Event, call: (Verb, RBACBinding))
    requires Sound(s) && Tidy(s) && AllSteady(h, s) && e.Tick? && e.id in s.tasks
    requires CallOf(s.tasks[e.id], e.pick) == Some(call) && !call.0.Delete? && ReplyTo(s, call).None?
    ensures HasRecord(s.tasks[e.id]) && Owes(h, NextStep(h, s, e), s.tasks[e.id].record, call.1)
  {
    var t, b := s.tasks[e.id], call.1;
    assert Points(t, |s.heap|) && Steady(h, s, t);
    CallIsTodo(t, e.pick);
    GrantNext(h, s, e);
    assert Fits(h, s.heap[t.record], b) && Placeable(b.At(), s.namespaces);
    OwnNotPassed(h, s, e, t.record, b);
    var s' := NextStep(h, s, e);
    var k :| k in s.keys && s.keys[k] == t.record;
    assert k in s'.keys && s'.keys[k] == t.record;
  }

  lemma TickAccounted(h: Hash, s: System, e: Event)
    requires Sound(s) && Tidy(s) && AllSteady(h, s) && Accounted(h, s) && e.Tick? && e.id in s.tasks && InTurn(s, e)
    ensures Accounted(h, NextStep(h, s, e))
  {
    var s', t := NextStep(h, s, e), s.tasks[e.id];
    var call := if e.ok || e.applied then CallOf(t, e.pick) else None;
    forall p | p in s'.objects && s'.objects[p].owned ensures exists r, b :: AccountsFor(h, s', r, b, p, s'.objects[p]) {
      assert s'.objects == ObjectsAfter(s, call);
      CallWrites(s, call, p);
      if p in s.objects && s'.objects[p] == s.objects[p] {
        var r, b :| AccountsFor(h, s, r, b, p, s.objects[p]);
        TickOwes(h, s, e, r, b);
        assert AccountsFor(h, s', r, b, p, s'.objects[p]);
      } else {
        WrittenOwes(h, s, e, call.value);
        assert AccountsFor(h, s', t.record, call.value.1, p, s'.objects[p]);
      }
    }
  }

  /** Nothing but the namespaces has changed. */
  lemma OwesElsewhere(h: Hash, s: System, s': System, r: nat, b: RBACBinding)
    requires Owes(h, s, r, b) && s'.heap == s.heap && s'.keys == s.keys && s'.tasks == s.tasks
    requires b in Derived(h, s.heap[r], s'.namespaces)
    ensures Owes(h, s', r, b)
  {
    if Held(s, r) {
      var k :| k in s.keys && s.keys[k] == r;
      assert k in s'.keys && s'.keys[k] == r;
    } else {
      var t :| t in s.tasks && Revoking(s, s.tasks[t]) == Some(r);
      assert t in s'.tasks && Revoking(s', s'.tasks[t]) == Some(r);
    }
    forall t | t in s'.tasks && Revoking(s', s'.tasks[t]) == Some(r) ensures Reaches(h, s', s'.tasks[t], b) {
      assert Revoking(s, s.tasks[t]) == Some(r);
      assert Reaches(h, s, s.tasks[t], b);
    }
  }

  lemma NamespaceOwes(h: Hash, s: System, e: Event, r: nat, b: RBACBinding)
    requires Sound(s) && Owes(h, s, r, b) && (e.NamespaceAdded? || e.NamespaceRemoved?)
    requires b.At() in NextStep(h, s, e).objects
    ensures Owes(h, NextStep(h, s, e), r, b)
  {
    if e.NamespaceAdded? {
      DerivedGrows(h, s.heap[r], s.namespaces, e.name);
    } else if e.name != "" {
      DerivedShrinks(h, s.heap[r], s.namespaces, e.name, b);
    }
    OwesElsewhere(h, s, NextStep(h, s, e), r, b);
  }

  lemma NamespacesAccounted(h: Hash, s: System, e: Event)
    requires Sound(s) && Accounted(h, s) && (e.NamespaceAdded? || e.NamespaceRemoved?)
    ensures Accounted(h, NextStep(h, s, e))
  {
    var s' := NextStep(h, s, e);
    forall p | p in s'.objects && s'.objects[p].owned ensures exists r, b :: AccountsFor(h, s', r, b, p, s'.objects[p]) {
      assert p in s.objects && s'.objects[p] == s.objects[p];
      var r, b :| AccountsFor(h, s, r, b, p, s.objects[p]);
      NamespaceOwes(h, s, e, r, b);
      assert AccountsFor(h, s', r, b, p, s'.objects[p]);
    }
  }

  /** A request that arrives has dealt with nothing yet. */
  lemma ArrivalOwes(h: Hash, s: System, e: Event, r: nat, b: RBACBinding)
    requires Sound(s) && Owes(h, s, r, b) && IsRequest(e) && e.id !in s.tasks && Arrive(s, e).Some?
    ensures Owes(h, NextStep(h, s, e), r, b)
  {
    var s' := NextStep(h, s, e);
    assert s' == s.(tasks := s.tasks[e.id := Arrive(s, e).value]);
    if Held(s, r) {
      var k :| k in s.keys && s.keys[k] == r;
      assert k in s'.keys && s'.keys[k] == r;
    } else {
      var t :| t in s.tasks && Revoking(s, s.tasks[t]) == Some(r);
      assert t in s'.tasks && Revoking(s', s'.tasks[t]) == Some(r);
    }
    forall t | t in s'.tasks && Revoking(s', s'.tasks[t]) == Some(r) ensures Reaches(h, s', s'.tasks[t], b) {
      if t != e.id {
        assert Revoking(s, s.tasks[t]) == Some(r);
        assert Reaches(h, s, s.tasks[t], b);
      }
    }
  }

  lemma NextAccounted(h: Hash, s: System, e: Event)
    requires Sound(s) && Tidy(s) && AllSteady(h, s) && Accounted(h, s) && InTurn(s, e)
    ensures Accounted(h, NextStep(h, s, e))
  {
    if e.Tick? && e.id in s.tasks {
      TickAccounted(h, s, e);
    } else if e.NamespaceAdded? || e.NamespaceRemoved? {
      NamespacesAccounted(h, s, e);
    } else if IsRequest(e) && e.id !in s.tasks && Arrive(s, e).Some? {
      var s' := NextStep(h, s, e);
      forall p | p in s'.objects && s'.objects[p].owned ensures exists r, b :: AccountsFor(h, s', r, b, p, s'.objects[p]) {
        var r, b :| AccountsFor(h, s, r, b, p, s.objects[p]);
        ArrivalOwes(h, s, e, r, b);
        assert AccountsFor(h, s', r, b, p, s'.objects[p]);
      }
    }
  }

  /* ---------- Runs ---------- */

  lemma {:induction false} RunInTurnKeeps(h: Hash, s: System, es: seq<Event>)
    requires Initial(s) && RunsInTurn(h, s, es)
    ensures var t := Run(h, s, es); Tidy(t) && AllSteady(h, t) && Accounted(h, t)
    decreases |es|
  {
    if |es| > 0 {
      var front, e := es[..|es| - 1], es[|es| - 1];
      RunInTurnKeeps(h, s, front);
      var m := Run(h, s, front);
      TurnsAreOrderly(m, e);
      NextTidy(h, m, e);
      NextSteady(h, m, e);
      NextAccounted(h, m, e);
    }
  }

  /** No grant outlives its policy when requests for one principal take turns, the calls that delete
      bindings succeed, and no scope is narrowed: whenever no request is deleting bindings, and so
      whenever all requests are done, every generated object is implied by a current entry. Requests
      for different principals and changes of namespaces interleave in any way, and other calls may fail. */
  lemma RunsInTurnLeaveNoOrphans(h: Hash, s: System, es: seq<Event>)
    requires Initial(s) && RunsInTurn(h, s, es)
    requires var t := Run(h, s, es); forall u :: u in t.tasks ==> !IsRevoking(t.tasks[u])
    ensures Orphans(h, View(Run(h, s, es))) == {}
  {
    RunInTurnKeeps(h, s, es);
    AccountedIsJustified(h, Run(h, s, es));
  }
}
