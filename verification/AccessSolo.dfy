/** internal/api/access.go: a request whose steps nobody interrupts, and whose calls succeed, is one
    step of the sequential model. */
module AccessSolo {
  import opened Text
  import opened Model
  import opened Rbac
  import opened Kube
  import opened Access
  import opened AccessSteps
  import AccessServer
  import Arn

  /** The steps of request `id`, and no others; every call succeeds. */
  ghost predicate Solo(es: seq<Event>, id: nat) {
    forall e :: e in es ==> e.Tick? && e.id == id && e.ok
  }

  /** What the store and the API server keep in every run: no record under two keys, no policy twice in
      a record, no object without its namespace. */
  ghost predicate WellKept(s: System) {
    && (forall j, k :: j in s.keys && k in s.keys && s.keys[j] == s.keys[k] ==> j == k)
    && (forall r :: 0 <= r < |s.heap| ==> UniqueArns(s.heap[r].policies))
    && (forall t :: t in s.tasks && s.tasks[t].Storing? ==> UniqueArns(s.tasks[t].entry.policies))
    && (forall p :: p in s.objects ==> Placeable(p, s.namespaces))
  }

  /* ---------- Applying, one binding at a time ---------- */

  /** No two bindings have one place. */
  ghost predicate Apart(bs: set<RBACBinding>) {
    forall b, c :: b in bs && c in bs && b.At() == c.At() ==> b == c
  }

  lemma DerivedApart(h: Hash, e: Entry, existing: set<string>)
    requires UniqueArns(e.policies)
    ensures Apart(Derived(h, e, existing))
  {
    forall b, c | b in Derived(h, e, existing) && c in Derived(h, e, existing) && b.At() == c.At() ensures b == c {
      PathsDistinct(h, e.principal, e.Subject(), e.policies, Visible(e.policies, existing), b, c);
    }
  }

  /** All of `done` is in place, and nothing else but the place of `b` may have changed. */
  ghost predicate AppliedBut(before: map<Path, Obj>, done: set<RBACBinding>, b: RBACBinding, now: map<Path, Obj>) {
    && now - Paths(done + {b}) == before - Paths(done + {b})
    && forall c :: c in done ==> c.At() in now && now[c.At()] == Live(c)
  }

  lemma AppliedIsBut(before: map<Path, Obj>, done: set<RBACBinding>, b: RBACBinding, now: map<Path, Obj>)
    requires Applied(before, done, now)
    ensures AppliedBut(before, done, b, now)
  {
    assert Paths(done + {b}) == Paths(done) + {b.At()};
    assert now - Paths(done + {b}) == (now - Paths(done)) - {b.At()};
    assert before - Paths(done + {b}) == (before - Paths(done)) - {b.At()};
  }

  /** Writing the binding, or deleting what is at its place. */
  lemma WriteOne(before: map<Path, Obj>, done: set<RBACBinding>, b: RBACBinding, now: map<Path, Obj>)
    requires AppliedBut(before, done, b, now) && forall c :: c in done ==> c.At() != b.At()
    ensures Applied(before, done + {b}, now[b.At() := Live(b)])
    ensures AppliedBut(before, done, b, now - {b.At()})
  {
    assert b.At() in Paths(done + {b}) by { assert b in done + {b}; }
    assert now[b.At() := Live(b)] - Paths(done + {b}) == now - Paths(done + {b});
    assert now - {b.At()} - Paths(done + {b}) == now - Paths(done + {b});
  }

  lemma AppliedSome(before: map<Path, Obj>, done: set<RBACBinding>, bs: set<RBACBinding>, now: map<Path, Obj>)
    requires Applied(before, done, now) && done <= bs && Apart(bs)
    ensures PartlyApplied(before, bs, now)
  {
    assert Paths(done) <= Paths(bs);
    assert now - Paths(bs) == (now - Paths(done)) - Paths(bs);
    assert before - Paths(bs) == (before - Paths(done)) - Paths(bs);
    forall b | b in bs && b.At() in now
      ensures now[b.At()] == Live(b) || (b.At() in before && now[b.At()] == before[b.At()])
    {
      if b !in done {
        assert b.At() !in Paths(done);
        assert b.At() in now - Paths(done);
      }
    }
  }

  /** How far a request has come in applying a record's bindings. */
  ghost predicate GrantProgress(h: Hash, e: Entry, namespaces: set<string>, before: map<Path, Obj>, t: Task, now: map<Path, Obj>) {
    var bs := Derived(h, e, namespaces);
    match t
    case Listing(_, aim) => aim == Grant && now == before
    case Deriving(_, names, aim) => aim == Grant && names == Visible(e.policies, namespaces) && now == before
    case Applying(_, todo) => todo <= bs && Applied(before, bs - todo, now)
    case Putting(_, b, todo) =>
      todo <= bs && b in bs - todo && Applied(before, bs - todo - {b}, now) && b.At() in now && Placeable(b.At(), namespaces)
    case Unmaking(_, b, todo) =>
      todo <= bs && b in bs - todo && Applied(before, bs - todo - {b}, now) && b.At() in now && Placeable(b.At(), namespaces)
    case Remaking(_, b, todo) =>
      todo <= bs && b in bs - todo && AppliedBut(before, bs - todo - {b}, b, now) && b.At() !in now && Placeable(b.At(), namespaces)
    case Finished => GrantDone(h, e, namespaces, before, now)
    case _ => false
  }

  /** The reconcile is over: everything is applied if all its namespaces exist, and a part otherwise. */
  ghost predicate GrantDone(h: Hash, e: Entry, namespaces: set<string>, before: map<Path, Obj>, now: map<Path, Obj>) {
    var bs := Derived(h, e, namespaces);
    && PartlyApplied(before, bs, now)
    && (AccessServer.AllNamespacesExist(bs, namespaces) ==> Applied(before, bs, now))
  }

  /** One step of a request that is applying bindings. */
  lemma GrantAdvances(h: Hash, s: System, t: Task, before: map<Path, Obj>, pick: RBACBinding)
    requires Sound(s) && Points(t, |s.heap|) && HasRecord(t) && UniqueArns(s.heap[t.record].policies)
    requires GrantProgress(h, s.heap[t.record], s.namespaces, before, t, s.objects)
    ensures GrantProgress(h, s.heap[t.record], s.namespaces, before, Then(h, s, t, pick, true), ObjectsAfter(s, CallOf(t, pick)))
    ensures var u := Then(h, s, t, pick, true); u == Finished || (HasRecord(u) && u.record == t.record)
  {
    var e := s.heap[t.record];
    DerivedApart(h, e, s.namespaces);
    match t
    case Listing(_, _) =>
    case Deriving(_, _, _) =>
      assert Paths({}) == {} && before - {} == before;
      var bs := Derived(h, e, s.namespaces);
      assert bs - bs == {};
    case Applying(_, todo) => ApplyAdvances(h, s, t, before, pick);
    case Putting(_, b, todo) => PutAdvances(h, s, t, before, pick);
    case Unmaking(_, b, todo) => UnmakeAdvances(h, s, t, before, pick);
    case Remaking(_, b, todo) => RemakeAdvances(h, s, t, before, pick);
    case _ =>
  }

  lemma ApplyAdvances(h: Hash, s: System, t: Task, before: map<Path, Obj>, pick: RBACBinding)
    requires Sound(s) && Points(t, |s.heap|) && t.Applying? && Apart(Derived(h, s.heap[t.record], s.namespaces))
    requires GrantProgress(h, s.heap[t.record], s.namespaces, before, t, s.objects)
    ensures GrantProgress(h, s.heap[t.record], s.namespaces, before, Then(h, s, t, pick, true), ObjectsAfter(s, CallOf(t, pick)))
  {
    var bs, todo := Derived(h, s.heap[t.record], s.namespaces), t.todo;
    if todo == {} {
      assert bs - {} == bs;
      AppliedSome(before, bs, bs, s.objects);
    } else if pick in todo {
      assert bs - (todo - {pick}) == bs - todo + {pick};
      assert bs - (todo - {pick}) - {pick} == bs - todo;
      AppliedIsBut(before, bs - todo, pick, s.objects);
      WriteOne(before, bs - todo, pick, s.objects);
      AppliedSome(before, bs - todo, bs, s.objects);
    }
  }

  lemma PutAdvances(h: Hash, s: System, t: Task, before: map<Path, Obj>, pick: RBACBinding)
    requires Sound(s) && Points(t, |s.heap|) && t.Putting? && Apart(Derived(h, s.heap[t.record], s.namespaces))
    requires GrantProgress(h, s.heap[t.record], s.namespaces, before, t, s.objects)
    ensures GrantProgress(h, s.heap[t.record], s.namespaces, before, Then(h, s, t, pick, true), ObjectsAfter(s, CallOf(t, pick)))
  {
    var bs, b, todo := Derived(h, s.heap[t.record], s.namespaces), t.binding, t.todo;
    assert bs - todo == bs - todo - {b} + {b};
    AppliedIsBut(before, bs - todo - {b}, b, s.objects);
    WriteOne(before, bs - todo - {b}, b, s.objects);
  }

  lemma UnmakeAdvances(h: Hash, s: System, t: Task, before: map<Path, Obj>, pick: RBACBinding)
    requires Sound(s) && Points(t, |s.heap|) && t.Unmaking? && Apart(Derived(h, s.heap[t.record], s.namespaces))
    requires GrantProgress(h, s.heap[t.record], s.namespaces, before, t, s.objects)
    ensures GrantProgress(h, s.heap[t.record], s.namespaces, before, Then(h, s, t, pick, true), ObjectsAfter(s, CallOf(t, pick)))
  {
    var bs, b, todo := Derived(h, s.heap[t.record], s.namespaces), t.binding, t.todo;
    AppliedIsBut(before, bs - todo - {b}, b, s.objects);
    WriteOne(before, bs - todo - {b}, b, s.objects);
  }

  lemma RemakeAdvances(h: Hash, s: System, t: Task, before: map<Path, Obj>, pick: RBACBinding)
    requires Sound(s) && Points(t, |s.heap|) && t.Remaking? && Apart(Derived(h, s.heap[t.record], s.namespaces))
    requires GrantProgress(h, s.heap[t.record], s.namespaces, before, t, s.objects)
    ensures GrantProgress(h, s.heap[t.record], s.namespaces, before, Then(h, s, t, pick, true), ObjectsAfter(s, CallOf(t, pick)))
  {
    var bs, b, todo := Derived(h, s.heap[t.record], s.namespaces), t.binding, t.todo;
    assert bs - todo == bs - todo - {b} + {b};
    WriteOne(before, bs - todo - {b}, b, s.objects);
  }

  /* ---------- Deleting, one binding at a time ---------- */

  /** How far a request has come in deleting a record's bindings, for the given aim. */
  ghost predicate RevokeProgress(h: Hash, e: Entry, namespaces: set<string>, before: map<Path, Obj>, aim: Aim, t: Task, now: map<Path, Obj>) {
    var bs := Derived(h, e, namespaces);
    match t
    case Listing(_, a) => a == aim && now == before
    case Deriving(_, names, a) => a == aim && names == Visible(e.policies, namespaces) && now == before
    case Deleting(_, todo, a) => a == aim && todo <= bs && now == before - Paths(bs - todo)
    case _ => t == AfterRevoking(aim) && now == before - Paths(bs)
  }

  /** One step of a request that is deleting bindings. */
  lemma RevokeAdvances(h: Hash, s: System, t: Task, before: map<Path, Obj>, aim: Aim, pick: RBACBinding)
    requires Sound(s) && Points(t, |s.heap|) && (t.Listing? || t.Deriving? || t.Deleting?) && aim.Revoke?
    requires RevokeProgress(h, s.heap[t.record], s.namespaces, before, aim, t, s.objects)
    ensures RevokeProgress(h, s.heap[t.record], s.namespaces, before, aim, Then(h, s, t, pick, true), ObjectsAfter(s, CallOf(t, pick)))
    ensures var u := Then(h, s, t, pick, true); HasRecord(u) ==> u.record == t.record && (u.Listing? || u.Deriving? || u.Deleting?)
  {
    var bs := Derived(h, s.heap[t.record], s.namespaces);
    match t
    case Deriving(_, _, _) =>
      assert Paths({}) == {} && before - {} == before && bs - bs == {};
    case Deleting(_, todo, _) =>
      if todo == {} {
        assert bs - {} == bs;
      } else if pick in todo {
        DeleteOne(before, bs - todo, pick);
        assert bs - (todo - {pick}) == bs - todo + {pick};
        assert pick.At() !in s.objects ==> s.objects - {pick.At()} == s.objects;
      }
    case _ =>
  }

  lemma DeleteOne(before: map<Path, Obj>, done: set<RBACBinding>, b: RBACBinding)
    ensures before - Paths(done) - {b.At()} == before - Paths(done + {b})
  {
    assert Paths(done + {b}) == Paths(done) + {b.At()};
  }

  lemma RevokeDone(h: Hash, e: Entry, namespaces: set<string>, before: map<Path, Obj>)
    ensures AccessServer.Revoked(h, true, namespaces, e, true, before, before - Paths(Derived(h, e, namespaces)))
  {
    var bs := Derived(h, e, namespaces);
    assert before - Paths(bs) - Paths(bs) == before - Paths(bs);
  }

  /* ---------- What every run keeps ---------- */

  lemma NextWellKept(h: Hash, s: System, e: Event)
    requires Sound(s) && WellKept(s)
    ensures WellKept(NextStep(h, s, e))
  {
    if e.Tick? && e.id in s.tasks {
      var t := s.tasks[e.id];
      StoredKeysApart(s, t);
      StoredUnique(s, t);
      CallKeepsPlaces(s, if e.ok || e.applied then CallOf(t, e.pick) else None);
      NeverStoring(h, s, t, e.pick, e.ok);
    }
  }

  lemma NeverStoring(h: Hash, s: System, t: Task, pick: RBACBinding, ok: bool)
    requires Sound(s) && Points(t, |s.heap|)
    ensures !Then(h, s, t, pick, ok).Storing?
  {
  }

  lemma StoredUnique(s: System, t: Task)
    requires Sound(s) && (forall r :: 0 <= r < |s.heap| ==> UniqueArns(s.heap[r].policies))
    requires t.Storing? ==> UniqueArns(t.entry.policies)
    ensures forall r :: 0 <= r < |Stored(s, t).heap| ==> UniqueArns(Stored(s, t).heap[r].policies)
  {
    match t
    case Upserting(_, key, p) => if key in s.keys { UpsertedAt(s.heap[s.keys[key]].policies, p); }
    case Filtering(f) => if f.key in s.keys { WithoutAt(s.heap[s.keys[f.key]].policies, f.policy); }
    case _ =>
  }

  lemma {:induction false} RunWellKept(h: Hash, s: System, es: seq<Event>)
    requires Initial(s)
    ensures WellKept(Run(h, s, es))
    decreases |es|
  {
    if |es| > 0 {
      RunWellKept(h, s, es[..|es| - 1]);
      NextWellKept(h, Run(h, s, es[..|es| - 1]), es[|es| - 1]);
    }
  }

  /* ---------- Requests run alone ---------- */

  /** The state in which a request has just arrived. */
  ghost function Arrived(h: Hash, s: System, e: Event): System
    requires Sound(s)
  {
    NextSound(h, s, e);
    NextStep(h, s, e)
  }

  /** A record rewritten under the one key that leads to it. */
  lemma ViewRewritten(s: System, t: System, key: string, policies: seq<AssociatedPolicy>)
    requires Sound(s) && WellKept(s) && key in s.keys
    requires t.heap == Rewritten(s, key, policies).heap && t.keys == s.keys && t.namespaces == s.namespaces
    ensures View(t) == View(s).(entries := View(s).entries[key := s.heap[s.keys[key]].(policies := policies)], objects := t.objects)
  {
    var e := s.heap[s.keys[key]].(policies := policies);
    forall k | k in s.keys ensures View(t).entries[k] == View(s).entries[key := e][k] {
      assert k != key ==> s.keys[k] != s.keys[key];
    }
    assert View(t).entries == View(s).entries[key := e];
  }

  /** Creating: one access of the store. */
  lemma SoloCreateIsStep(h: Hash, creator: string, s: System, es: seq<Event>, id: nat, principal: string, username: string, groups: seq<string>)
    requires Sound(s) && id !in s.tasks && CreateAccepted(s.keys.Keys, principal) && Solo(es, id)
    requires var t := Run(h, Arrived(h, s, CreateRequest(id, principal, username, groups)), es); id in t.tasks && t.tasks[id] == Finished
    ensures var t := Run(h, Arrived(h, s, CreateRequest(id, principal, username, groups)), es);
            Access.Next(h, creator, View(s), CreateEntry(principal, username, groups), CLEAN, View(t))
  {
    SoloCreate(h, s, es, id, principal, username, groups);
    var t := Run(h, Arrived(h, s, CreateRequest(id, principal, username, groups)), es);
    var key, entry := Arn.Canonicalize(principal).value, NewEntry(principal, username, groups);
    ViewCreated(s, t, key, entry);
    assert View(s).entries.Keys == s.keys.Keys;
    AccessServer.CreateStep(h, creator, View(s), principal, username, groups);
  }

  lemma ViewCreated(s: System, t: System, key: string, entry: Entry)
    requires Sound(s) && t.heap == s.heap + [entry] && t.keys == s.keys[key := |s.heap|]
    requires t.objects == s.objects && t.namespaces == s.namespaces
    ensures View(t) == View(s).(entries := View(s).entries[key := entry])
  {
    assert View(t).entries == View(s).entries[key := entry];
  }

  lemma {:induction false} SoloCreate(h: Hash, s: System, es: seq<Event>, id: nat, principal: string, username: string, groups: seq<string>)
    requires Sound(s) && id !in s.tasks && CreateAccepted(s.keys.Keys, principal) && Solo(es, id)
    ensures var t := Run(h, Arrived(h, s, CreateRequest(id, principal, username, groups)), es);
            CreateProgress(s, t, id, Arn.Canonicalize(principal).value, NewEntry(principal, username, groups))
    decreases |es|
  {
    if |es| > 0 {
      SoloCreate(h, s, es[..|es| - 1], id, principal, username, groups);
      assert es[|es| - 1] in es;
      CreateAdvances(h, s, Run(h, Arrived(h, s, CreateRequest(id, principal, username, groups)), es[..|es| - 1]), es[|es| - 1],
                     Arn.Canonicalize(principal).value, NewEntry(principal, username, groups));
    }
  }

  ghost predicate CreateProgress(s: System, t: System, id: nat, key: string, entry: Entry) {
    && id in t.tasks && t.objects == s.objects && t.namespaces == s.namespaces
    && if t.tasks[id] == Finished then t.heap == s.heap + [entry] && t.keys == s.keys[key := |s.heap|]
       else t.tasks[id] == Storing(key, entry) && t.heap == s.heap && t.keys == s.keys
  }

  lemma CreateAdvances(h: Hash, s: System, t: System, e: Event, key: string, entry: Entry)
    requires Sound(t) && e.Tick? && e.ok && CreateProgress(s, t, e.id, key, entry)
    ensures CreateProgress(s, NextStep(h, t, e), e.id, key, entry)
  {
  }

  predicate IsAt(t: Task, r: nat) {
    HasRecord(t) ==> t.record == r
  }

  /* ---------- Deleting alone ---------- */

  ghost predicate DeleteProgress(h: Hash, s: System, t: System, id: nat, key: string)
    requires Sound(s) && Sound(t) && key in s.keys
  {
    var r := s.keys[key];
    && id in t.tasks && t.heap == s.heap && t.namespaces == s.namespaces
    && match t.tasks[id]
       case Dropping(q, k) => q == r && k == key && t.keys == s.keys && t.objects == s.objects
       case u =>
         && t.keys == s.keys - {key} && IsAt(u, r)
         && RevokeProgress(h, s.heap[r], s.namespaces, s.objects, Revoke(None), u, t.objects)
  }

  lemma DeleteAdvances(h: Hash, s: System, t: System, e: Event, key: string)
    requires Sound(s) && Sound(t) && key in s.keys && e.Tick? && e.ok && DeleteProgress(h, s, t, e.id, key)
    ensures Sound(NextStep(h, t, e)) && DeleteProgress(h, s, NextStep(h, t, e), e.id, key)
  {
    NextSound(h, t, e);
    var u := t.tasks[e.id];
    assert Points(u, |t.heap|);
    if u.Listing? || u.Deriving? || u.Deleting? {
      RevokeAdvances(h, t, u, s.objects, Revoke(None), e.pick);
    }
  }

  lemma {:induction false} SoloDelete(h: Hash, s: System, es: seq<Event>, id: nat, principal: string, key: string)
    requires Sound(s) && id !in s.tasks && LookupKey(s.keys.Keys, principal) == Some(key) && Solo(es, id)
    ensures DeleteProgress(h, s, Run(h, Arrived(h, s, DeleteRequest(id, principal)), es), id, key)
    decreases |es|
  {
    if |es| > 0 {
      SoloDelete(h, s, es[..|es| - 1], id, principal, key);
      assert es[|es| - 1] in es;
      DeleteAdvances(h, s, Run(h, Arrived(h, s, DeleteRequest(id, principal)), es[..|es| - 1]), es[|es| - 1], key);
    }
  }

  lemma SoloDeleteIsStep(h: Hash, creator: string, s: System, es: seq<Event>, id: nat, principal: string)
    requires Sound(s) && WellKept(s) && id !in s.tasks && LookupKey(s.keys.Keys, principal).Some? && Solo(es, id)
    requires var t := Run(h, Arrived(h, s, DeleteRequest(id, principal)), es); id in t.tasks && t.tasks[id] == Finished
    ensures var t := Run(h, Arrived(h, s, DeleteRequest(id, principal)), es);
            Access.Next(h, creator, View(s), DeleteEntry(principal), CLEAN, View(t))
  {
    var key := LookupKey(s.keys.Keys, principal).value;
    var t := Run(h, Arrived(h, s, DeleteRequest(id, principal)), es);
    SoloDelete(h, s, es, id, principal, key);
    DeletedIsStep(h, creator, s, t, id, principal, key);
  }

  lemma DeletedIsStep(h: Hash, creator: string, s: System, t: System, id: nat, principal: string, key: string)
    requires Sound(s) && WellKept(s) && Sound(t) && LookupKey(s.keys.Keys, principal) == Some(key)
    requires DeleteProgress(h, s, t, id, key) && t.tasks[id] == Finished
    ensures Access.Next(h, creator, View(s), DeleteEntry(principal), CLEAN, View(t))
  {
    RevokeDone(h, s.heap[s.keys[key]], s.namespaces, s.objects);
    ViewDropped(s, t, key);
    assert View(s).entries.Keys == s.keys.Keys;
    AccessServer.DeleteIsStep(h, creator, View(s), principal, key, true, View(t));
  }

  lemma ViewDropped(s: System, t: System, key: string)
    requires Sound(s) && t.heap == s.heap && t.keys == s.keys - {key} && t.namespaces == s.namespaces
    ensures View(t) == View(s).(entries := View(s).entries - {key}, objects := t.objects)
  {
    assert View(t).entries == View(s).entries - {key};
  }

  /* ---------- Associating alone ---------- */

  ghost predicate AssociateProgress(h: Hash, s: System, t: System, id: nat, key: string, p: AssociatedPolicy)
    requires Sound(s) && Sound(t) && key in s.keys
  {
    var r := s.keys[key];
    && id in t.tasks && t.keys == s.keys && t.namespaces == s.namespaces && IsAt(t.tasks[id], r)
    && if t.tasks[id].Upserting? then
         t.tasks[id] == Upserting(r, key, p) && t.heap == s.heap && t.objects == s.objects
       else
         && t.heap == Rewritten(s, key, Upserted(s.heap[r].policies, p)).heap
         && GrantProgress(h, t.heap[r], s.namespaces, s.objects, t.tasks[id], t.objects)
  }

  lemma AssociateAdvances(h: Hash, s: System, t: System, e: Event, key: string, p: AssociatedPolicy)
    requires Sound(s) && Sound(t) && WellKept(t) && key in s.keys && e.Tick? && e.ok && AssociateProgress(h, s, t, e.id, key, p)
    ensures Sound(NextStep(h, t, e)) && AssociateProgress(h, s, NextStep(h, t, e), e.id, key, p)
  {
    NextSound(h, t, e);
    var u := t.tasks[e.id];
    assert Points(u, |t.heap|);
    if HasRecord(u) && !u.Upserting? {
      GrantAdvances(h, t, u, s.objects, e.pick);
    }
  }

  lemma {:induction false} SoloAssociate(h: Hash, s: System, es: seq<Event>, id: nat, principal: string, policy: string,
                                         scope: Option<AccessScope>, key: string)
    requires Sound(s) && WellKept(s) && id !in s.tasks && Solo(es, id)
    requires AssociateAccepted(s.keys.Keys, principal, policy, scope) && LookupKey(s.keys.Keys, principal) == Some(key)
    ensures var t := Run(h, Arrived(h, s, AssociateRequest(id, principal, policy, scope)), es);
            WellKept(t) && AssociateProgress(h, s, t, id, key, AssociatedPolicy(policy, ScopeOf(scope)))
    decreases |es|
  {
    var s1 := Arrived(h, s, AssociateRequest(id, principal, policy, scope));
    if |es| == 0 {
      NextWellKept(h, s, AssociateRequest(id, principal, policy, scope));
    } else {
      var front, e := es[..|es| - 1], es[|es| - 1];
      SoloAssociate(h, s, front, id, principal, policy, scope, key);
      assert e in es;
      AssociateAdvances(h, s, Run(h, s1, front), e, key, AssociatedPolicy(policy, ScopeOf(scope)));
      NextWellKept(h, Run(h, s1, front), e);
    }
  }

  lemma SoloAssociateIsStep(h: Hash, creator: string, s: System, es: seq<Event>, id: nat, principal: string, policy: string,
                            scope: Option<AccessScope>) returns (applied: bool)
    requires Sound(s) && WellKept(s) && id !in s.tasks && Solo(es, id)
    requires AssociateAccepted(s.keys.Keys, principal, policy, scope)
    requires var t := Run(h, Arrived(h, s, AssociateRequest(id, principal, policy, scope)), es); id in t.tasks && t.tasks[id] == Finished
    ensures var t := Run(h, Arrived(h, s, AssociateRequest(id, principal, policy, scope)), es);
            && Access.Next(h, creator, View(s), Associate(principal, policy, scope), Calls(true, applied), View(t))
            && (NamespacesExist(h, View(t), LookupKey(s.keys.Keys, principal).value) ==> applied)
  {
    var key := LookupKey(s.keys.Keys, principal).value;
    var t := Run(h, Arrived(h, s, AssociateRequest(id, principal, policy, scope)), es);
    SoloAssociate(h, s, es, id, principal, policy, scope, key);
    applied := AssociatedIsStep(h, creator, s, t, id, principal, policy, scope, key);
  }

  lemma AssociatedIsStep(h: Hash, creator: string, s: System, t: System, id: nat, principal: string, policy: string,
                         scope: Option<AccessScope>, key: string) returns (applied: bool)
    requires Sound(s) && WellKept(s) && Sound(t) && WellKept(t)
    requires AssociateAccepted(s.keys.Keys, principal, policy, scope) && LookupKey(s.keys.Keys, principal) == Some(key)
    requires AssociateProgress(h, s, t, id, key, AssociatedPolicy(policy, ScopeOf(scope))) && t.tasks[id] == Finished
    ensures Access.Next(h, creator, View(s), Associate(principal, policy, scope), Calls(true, applied), View(t))
    ensures NamespacesExist(h, View(t), key) ==> applied
  {
    var e, p := s.heap[s.keys[key]], AssociatedPolicy(policy, ScopeOf(scope));
    AssociateDone(h, s, t, id, key, p);
    ViewRewritten(s, t, key, Upserted(e.policies, p));
    applied := Applied(s.objects, Derived(h, e.(policies := Upserted(e.policies, p)), s.namespaces), t.objects);
    assert View(s).entries.Keys == s.keys.Keys;
    AccessServer.AssociateIsStep(h, creator, View(s), principal, policy, scope, key, applied, View(t));
  }

  lemma AssociateDone(h: Hash, s: System, t: System, id: nat, key: string, p: AssociatedPolicy)
    requires Sound(s) && Sound(t) && key in s.keys && AssociateProgress(h, s, t, id, key, p) && t.tasks[id] == Finished
    ensures var e := s.heap[s.keys[key]];
            var e' := e.(policies := Upserted(e.policies, p));
            && t.heap == Rewritten(s, key, e'.policies).heap && t.keys == s.keys && t.namespaces == s.namespaces
            && GrantDone(h, e', s.namespaces, s.objects, t.objects)
  {
  }

  /** Every namespace that the entry's bindings are in exists. */
  ghost predicate NamespacesExist(h: Hash, s: Access.State, key: string) {
    key in s.entries ==> AccessServer.AllNamespacesExist(Derived(h, s.entries[key], s.namespaces), s.namespaces)
  }

  /* ---------- Disassociating alone ---------- */

  predicate IsRevokingTask(t: Task) {
    t.Deleting? || t.Filtering? || ((t.Listing? || t.Deriving?) && t.aim.Revoke?)
  }

  /** First the old bindings are deleted; then the policy is filtered out and the rest applied again. */
  ghost predicate DisassociateProgress(h: Hash, s: System, t: System, id: nat, f: Filter)
    requires Sound(s) && Sound(t) && f.key in s.keys
  {
    var r := s.keys[f.key];
    && id in t.tasks && t.keys == s.keys && t.namespaces == s.namespaces && IsAt(t.tasks[id], r)
    && if IsRevokingTask(t.tasks[id]) then
         t.heap == s.heap && RevokeProgress(h, s.heap[r], s.namespaces, s.objects, Revoke(Some(f)), t.tasks[id], t.objects)
       else
         var mid := s.objects - Paths(Derived(h, s.heap[r], s.namespaces));
         && t.heap == Rewritten(s, f.key, Without(s.heap[r].policies, f.policy)).heap
         && if t.tasks[id].Finding? then t.tasks[id].principal == f.principal && t.objects == mid
            else GrantProgress(h, t.heap[r], s.namespaces, mid, t.tasks[id], t.objects)
  }

  lemma DisassociateAdvances(h: Hash, s: System, t: System, e: Event, f: Filter)
    requires Sound(s) && Sound(t) && WellKept(t) && LookupKey(s.keys.Keys, f.principal) == Some(f.key) && e.Tick? && e.ok
    requires DisassociateProgress(h, s, t, e.id, f)
    ensures Sound(NextStep(h, t, e)) && DisassociateProgress(h, s, NextStep(h, t, e), e.id, f)
  {
    NextSound(h, t, e);
    var u := t.tasks[e.id];
    assert Points(u, |t.heap|);
    if u.Filtering? {
      FilterAdvances(h, s, t, e, f);
    } else if IsRevokingTask(u) {
      DeletionAdvances(h, s, t, e, f);
    } else if u.Finding? {
      FindAdvances(h, s, t, e, f);
    } else {
      RegrantAdvances(h, s, t, e, f);
    }
  }

  lemma FilterAdvances(h: Hash, s: System, t: System, e: Event, f: Filter)
    requires Sound(s) && Sound(t) && f.key in s.keys && e.Tick? && e.ok && e.id in t.tasks && t.tasks[e.id].Filtering?
    requires Sound(NextStep(h, t, e)) && DisassociateProgress(h, s, t, e.id, f)
    ensures DisassociateProgress(h, s, NextStep(h, t, e), e.id, f)
  {
  }

  lemma DeletionAdvances(h: Hash, s: System, t: System, e: Event, f: Filter)
    requires Sound(s) && Sound(t) && f.key in s.keys && e.Tick? && e.ok && e.id in t.tasks
    requires IsRevokingTask(t.tasks[e.id]) && !t.tasks[e.id].Filtering?
    requires Sound(NextStep(h, t, e)) && DisassociateProgress(h, s, t, e.id, f)
    ensures DisassociateProgress(h, s, NextStep(h, t, e), e.id, f)
  {
    assert Points(t.tasks[e.id], |t.heap|);
    RevokeAdvances(h, t, t.tasks[e.id], s.objects, Revoke(Some(f)), e.pick);
  }

  lemma FindAdvances(h: Hash, s: System, t: System, e: Event, f: Filter)
    requires Sound(s) && Sound(t) && LookupKey(s.keys.Keys, f.principal) == Some(f.key)
    requires e.Tick? && e.ok && e.id in t.tasks && t.tasks[e.id].Finding?
    requires Sound(NextStep(h, t, e)) && DisassociateProgress(h, s, t, e.id, f)
    ensures DisassociateProgress(h, s, NextStep(h, t, e), e.id, f)
  {
  }

  lemma RegrantAdvances(h: Hash, s: System, t: System, e: Event, f: Filter)
    requires Sound(s) && Sound(t) && WellKept(t) && f.key in s.keys && e.Tick? && e.ok && e.id in t.tasks
    requires !IsRevokingTask(t.tasks[e.id]) && !t.tasks[e.id].Finding?
    requires Sound(NextStep(h, t, e)) && DisassociateProgress(h, s, t, e.id, f)
    ensures DisassociateProgress(h, s, NextStep(h, t, e), e.id, f)
  {
    var u := t.tasks[e.id];
    assert Points(u, |t.heap|);
    if HasRecord(u) {
      var mid := s.objects - Paths(Derived(h, s.heap[s.keys[f.key]], s.namespaces));
      GrantAdvances(h, t, u, mid, e.pick);
      StaysRegranting(h, t, u, e.pick);
    }
  }

  lemma StaysRegranting(h: Hash, s: System, t: Task, pick: RBACBinding)
    requires Sound(s) && Points(t, |s.heap|) && HasRecord(t) && !IsRevokingTask(t) && !t.Upserting? && !t.Dropping?
    ensures var u := Then(h, s, t, pick, true); !IsRevokingTask(u) && !u.Finding? && Stored(s, t) == s
  {
  }

  lemma {:induction false} SoloDisassociate(h: Hash, s: System, es: seq<Event>, id: nat, principal: string, policy: string, key: string)
    requires Sound(s) && WellKept(s) && id !in s.tasks && Solo(es, id) && LookupKey(s.keys.Keys, principal) == Some(key)
    ensures var t := Run(h, Arrived(h, s, DisassociateRequest(id, principal, policy)), es);
            WellKept(t) && DisassociateProgress(h, s, t, id, Filter(principal, key, policy))
    decreases |es|
  {
    var s1 := Arrived(h, s, DisassociateRequest(id, principal, policy));
    if |es| == 0 {
      NextWellKept(h, s, DisassociateRequest(id, principal, policy));
    } else {
      var front, e := es[..|es| - 1], es[|es| - 1];
      SoloDisassociate(h, s, front, id, principal, policy, key);
      assert e in es;
      DisassociateAdvances(h, s, Run(h, s1, front), e, Filter(principal, key, policy));
      NextWellKept(h, Run(h, s1, front), e);
    }
  }

  lemma SoloDisassociateIsStep(h: Hash, creator: string, s: System, es: seq<Event>, id: nat, principal: string, policy: string)
    returns (applied: bool)
    requires Sound(s) && WellKept(s) && id !in s.tasks && Solo(es, id) && LookupKey(s.keys.Keys, principal).Some?
    requires var t := Run(h, Arrived(h, s, DisassociateRequest(id, principal, policy)), es); id in t.tasks && t.tasks[id] == Finished
    ensures var t := Run(h, Arrived(h, s, DisassociateRequest(id, principal, policy)), es);
            && Access.Next(h, creator, View(s), Disassociate(principal, policy), Calls(true, applied), View(t))
            && (NamespacesExist(h, View(t), LookupKey(s.keys.Keys, principal).value) ==> applied)
  {
    var key := LookupKey(s.keys.Keys, principal).value;
    var t := Run(h, Arrived(h, s, DisassociateRequest(id, principal, policy)), es);
    SoloDisassociate(h, s, es, id, principal, policy, key);
    applied := DisassociatedIsStep(h, creator, s, t, id, principal, policy, key);
  }

  lemma DisassociatedIsStep(h: Hash, creator: string, s: System, t: System, id: nat, principal: string, policy: string, key: string)
    returns (applied: bool)
    requires Sound(s) && WellKept(s) && Sound(t) && WellKept(t) && LookupKey(s.keys.Keys, principal) == Some(key)
    requires DisassociateProgress(h, s, t, id, Filter(principal, key, policy)) && t.tasks[id] == Finished
    ensures Access.Next(h, creator, View(s), Disassociate(principal, policy), Calls(true, applied), View(t))
    ensures NamespacesExist(h, View(t), key) ==> applied
  {
    var e := s.heap[s.keys[key]];
    var e' := e.(policies := Without(e.policies, policy));
    DisassociateDone(h, s, t, id, Filter(principal, key, policy));
    ViewRewritten(s, t, key, Without(e.policies, policy));
    var mid := s.objects - Paths(Derived(h, e, s.namespaces));
    applied := Applied(mid, Derived(h, e', s.namespaces), t.objects);
    RevokeDone(h, e, s.namespaces, s.objects);
    Disassociated(h, creator, View(s), View(t), principal, policy, key, applied, mid);
  }

  lemma DisassociateDone(h: Hash, s: System, t: System, id: nat, f: Filter)
    requires Sound(s) && Sound(t) && f.key in s.keys && DisassociateProgress(h, s, t, id, f) && t.tasks[id] == Finished
    ensures var e := s.heap[s.keys[f.key]];
            var e' := e.(policies := Without(e.policies, f.policy));
            && t.heap == Rewritten(s, f.key, e'.policies).heap && t.keys == s.keys && t.namespaces == s.namespaces
            && GrantDone(h, e', s.namespaces, s.objects - Paths(Derived(h, e, s.namespaces)), t.objects)
  {
  }

  lemma Disassociated(h: Hash, creator: string, s: Access.State, t: Access.State, principal: string, policy: string, key: string,
                      applied: bool, mid: map<Path, Obj>)
    requires s.ready && key in s.entries && LookupKey(s.entries.Keys, principal) == Some(key)
    requires var e := s.entries[key];
             var e' := e.(policies := Without(e.policies, policy));
             && t == s.(entries := s.entries[key := e'], objects := t.objects)
             && AccessServer.Revoked(h, true, s.namespaces, e, true, s.objects, mid)
             && PartlyApplied(mid, Derived(h, e', s.namespaces), t.objects)
             && (applied ==> Applied(mid, Derived(h, e', s.namespaces), t.objects))
    requires forall p :: p in t.objects ==> Placeable(p, t.namespaces)
    ensures Access.Next(h, creator, s, Disassociate(principal, policy), Calls(true, applied), t)
  {
    AccessServer.DisassociateIsStep(h, creator, s, principal, policy, key, true, applied, t, mid);
  }
}
