/** internal/api/cluster.go and internal/api/oidc.go: clusters are created by a handler and a
    background provisioner and removed by another handler, all sharing the store and the index from
    issuer IDs to names. Each access to shared state is one step, and steps mix in any order. */
module Lifecycle {
  import opened Text
  import opened Store

  /** What the model leaves uninterpreted: the issuer ID of a name (a hash), and the endpoint and CA
      that a kubeconfig contains. */
  datatype World = World(issuerOf: string -> string, endpointOf: string -> string, caOf: string -> string)

  datatype Outcome = Failure | Success(kubeconfig: string)

  /** A kubeconfig that can be parsed is not empty. */
  predicate Usable(o: Outcome) {
    o.Success? ==> o.kubeconfig != ""
  }

  function NewCluster(w: World, name: string, life: nat): Cluster {
    Cluster(name, w.issuerOf(name), life, Creating, "", "", None, Signer(w.issuerOf(name), life))
  }

  /** The provisioner's update, made to whichever cluster has the name by then. */
  function Provisioned(w: World, o: Outcome, c: Cluster): Cluster {
    match o
    case Failure => c.(status := Failed)
    case Success(k) => c.(kubeconfig := k, endpoint := w.endpointOf(k), ca := Some(w.caOf(k)), status := Active)
  }

  /* ---------- The code, one critical section at a time ---------- */

  /** The shared part of the server. */
  class Server {
    const w: World
    const store: Store
    var index: map<string, string>
    var lives: nat

    constructor (w: World)
      ensures fresh(store) && store.Valid() && store.clusters == map[] && index == map[] && lives == 0 && this.w == w
    {
      this.w := w;
      this.store := new Store();
      this.index := map[];
      this.lives := 0;
    }

    /** handleCreateCluster up to and including the store's Add. */
    method AddCluster(name: string) returns (ok: bool)
      requires store.Valid()
      modifies this, store
      ensures store.Valid() && index == old(index)
      ensures ok <==> name !in old(store.clusters)
      ensures store.clusters == if ok then old(store.clusters)[name := NewCluster(w, name, old(lives))] else old(store.clusters)
      ensures lives == if ok then old(lives) + 1 else old(lives)
    {
      ok := store.Add(NewCluster(w, name, lives));
      if ok {
        lives := lives + 1;
      }
    }

    method IndexIssuer(name: string)
      modifies this`index
      ensures index == old(index)[w.issuerOf(name) := name]
    {
      index := index[w.issuerOf(name) := name];
    }

    /** The end of provisionCluster. */
    method FinishProvisioning(name: string, o: Outcome)
      requires store.Valid()
      modifies store
      ensures store.Valid() && store.clusters == Updated(old(store.clusters), name, c => Provisioned(w, o, c))
    {
      var found := store.Update(name, c => Provisioned(w, o, c));
    }

    /** handleDeleteCluster: removing the cluster, and returning the ID to drop from the index. */
    method RemoveCluster(name: string) returns (id: Option<string>)
      requires store.Valid()
      modifies store
      ensures store.Valid() && store.clusters == old(store.clusters) - {name}
      ensures id == if name in old(store.clusters) then Some(old(store.clusters)[name].id) else None
    {
      var removed := store.Delete(name);
      id := if removed.Some? then Some(removed.value.id) else None;
    }

    method UnindexIssuer(id: string)
      modifies this`index
      ensures index == old(index) - {id}
    {
      index := index - {id};
    }

    method SignerForIssuer(id: string) returns (signer: Option<Signer>)
      requires store.Valid()
      ensures signer == SignerFor(store.clusters, index, id)
    {
      if id !in index {
        return None;
      }
      var c := store.Get(index[id]);
      return if c.Some? then Some(c.value.signer) else None;
    }
  }

  function SignerFor(clusters: map<string, Cluster>, index: map<string, string>, id: string): Option<Signer> {
    if id in index && index[id] in clusters then Some(clusters[index[id]].signer) else None
  }

  /* ---------- Steps ---------- */

  /** A request or a background provisioner, by what it does next; `life` is the cluster it is for. */
  datatype Task =
    | Indexing(name: string, life: nat)
    | Queued(name: string, life: nat)
    | Provisioning(name: string, life: nat)
    | Removing(name: string)
    | Unindexing(id: string)
    | Looking(id: string)
    | Reading(id: string, name: string)
    | Answered(id: string, signer: Option<Signer>)
    | Finished

  predicate IsCreator(t: Task) {
    t.Indexing? || t.Queued? || t.Provisioning?
  }

  /** `busy` is the task that holds the mutex around provisioning. */
  datatype State = State(clusters: map<string, Cluster>, index: map<string, string>, lives: nat,
                         tasks: map<nat, Task>, busy: Option<nat>)

  const START := State(map[], map[], 0, map[], None)

  datatype Event =
    | Create(task: nat, name: string)
    | Delete(task: nat, name: string)
    | Lookup(task: nat, id: string)
    | Tick(task: nat, outcome: Outcome)

  function Next(w: World, s: State, e: Event): State {
    if e.Tick? then (if e.task in s.tasks then Advance(w, s, e.task, e.outcome) else s)
    else if e.task in s.tasks then s
    else if e.Create? then
      if e.name in s.clusters then s
      else s.(clusters := s.clusters[e.name := NewCluster(w, e.name, s.lives)], lives := s.lives + 1,
              tasks := s.tasks[e.task := Indexing(e.name, s.lives)])
    else if e.Delete? then
      if e.name !in s.clusters then s else s.(tasks := s.tasks[e.task := Removing(e.name)])
    else s.(tasks := s.tasks[e.task := Looking(e.id)])
  }

  function Advance(w: World, s: State, id: nat, o: Outcome): State
    requires id in s.tasks
  {
    match s.tasks[id]
    case Indexing(name, life) =>
      s.(index := s.index[w.issuerOf(name) := name], tasks := s.tasks[id := Queued(name, life)])
    case Queued(name, life) =>
      if s.busy.Some? then s
      else if name !in s.clusters then s.(tasks := s.tasks[id := Finished])
      else s.(tasks := s.tasks[id := Provisioning(name, life)], busy := Some(id))
    case Provisioning(name, life) =>
      s.(clusters := Updated(s.clusters, name, c => Provisioned(w, o, c)), tasks := s.tasks[id := Finished], busy := None)
    case Removing(name) =>
      if name !in s.clusters then s.(tasks := s.tasks[id := Finished])
      else s.(clusters := s.clusters - {name}, tasks := s.tasks[id := Unindexing(s.clusters[name].id)])
    case Unindexing(issuer) =>
      s.(index := s.index - {issuer}, tasks := s.tasks[id := Finished])
    case Looking(issuer) =>
      s.(tasks := s.tasks[id := if issuer in s.index then Reading(issuer, s.index[issuer]) else Answered(issuer, None)])
    case Reading(issuer, name) =>
      s.(tasks := s.tasks[id := Answered(issuer, if name in s.clusters then Some(s.clusters[name].signer) else None)])
    case Answered(_, _) => s
    case Finished => s
  }

  function Run(w: World, s: State, es: seq<Event>): State {
    if |es| == 0 then s else Next(w, Run(w, s, es[..|es| - 1]), es[|es| - 1])
  }

  ghost predicate UsableEvents(es: seq<Event>) {
    forall e :: e in es && e.Tick? ==> Usable(e.outcome)
  }

  /* ---------- Every interleaving ---------- */

  /** Either nothing is known of the cluster's API server, or all that is published belongs together. */
  ghost predicate Published(w: World, c: Cluster) {
    if c.kubeconfig == "" then c.endpoint == "" && c.ca == None && c.status != Active
    else c.endpoint == w.endpointOf(c.kubeconfig) && c.ca == Some(w.caOf(c.kubeconfig))
  }

  ghost predicate GoodCluster(w: World, k: string, c: Cluster, lives: nat) {
    c.name == k && c.id == w.issuerOf(k) && c.life < lives && c.signer == Signer(w.issuerOf(k), c.life) && Published(w, c)
  }

  ghost predicate Consistent(w: World, s: State) {
    && (forall k :: k in s.clusters ==> GoodCluster(w, k, s.clusters[k], s.lives))
    && (forall id :: id in s.index ==> w.issuerOf(s.index[id]) == id)
    && (forall t :: t in s.tasks ==> GoodAnswer(w, s.tasks[t], s.lives))
  }

  /** A lookup goes on with a name that has the requested issuer ID, and ends with the signer of some
      cluster with that issuer ID. */
  ghost predicate GoodAnswer(w: World, t: Task, lives: nat) {
    && (t.Reading? ==> w.issuerOf(t.name) == t.id)
    && (t.Answered? && t.signer.Some? ==> t.signer.value.issuerId == t.id && t.signer.value.key < lives)
  }

  /** A step leaves each cluster alone, creates it, or is the end of a provisioner with its name. */
  lemma ClusterStep(w: World, s: State, e: Event, k: string)
    requires k in Next(w, s, e).clusters
    ensures var s' := Next(w, s, e);
            || (k in s.clusters && s'.clusters[k] == s.clusters[k])
            || (k !in s.clusters && e == Create(e.task, k) && s'.clusters[k] == NewCluster(w, k, s.lives) && s'.lives == s.lives + 1)
            || (&& k in s.clusters && e.Tick? && e.task in s.tasks && s.tasks[e.task].Provisioning? && s.tasks[e.task].name == k
                && s'.clusters[k] == Provisioned(w, e.outcome, s.clusters[k]))
    ensures s.lives <= Next(w, s, e).lives
  {
  }

  lemma NextConsistent(w: World, s: State, e: Event)
    requires Consistent(w, s) && (e.Tick? ==> Usable(e.outcome))
    ensures Consistent(w, Next(w, s, e))
  {
    var s' := Next(w, s, e);
    forall k | k in s'.clusters ensures GoodCluster(w, k, s'.clusters[k], s'.lives) {
      ClusterStep(w, s, e, k);
    }
    IndexStep(w, s, e);
    forall t | t in s'.tasks ensures GoodAnswer(w, s'.tasks[t], s'.lives) {
      if t == e.task {
        AnswerStep(w, s, e);
      } else {
        OnlyItsTask(w, s, e, t);
        LivesStep(w, s, e);
      }
    }
  }

  lemma LivesStep(w: World, s: State, e: Event)
    ensures s.lives <= Next(w, s, e).lives
  {
  }

  lemma AnswerStep(w: World, s: State, e: Event)
    requires Consistent(w, s) && e.task in Next(w, s, e).tasks
    ensures GoodAnswer(w, Next(w, s, e).tasks[e.task], Next(w, s, e).lives)
  {
    if e.Tick? && e.task in s.tasks {
      var t := s.tasks[e.task];
      assert GoodAnswer(w, t, s.lives);
      if t.Reading? && t.name in s.clusters {
        assert GoodCluster(w, t.name, s.clusters[t.name], s.lives);
      }
    }
  }

  /** A lookup that finds a signer has found that of a cluster which has the requested issuer ID and
      exists at that moment. */
  lemma LookupFindsLiveCluster(w: World, es: seq<Event>, task: nat, o: Outcome)
    requires UsableEvents(es)
    requires var s := Run(w, START, es);
             task in s.tasks && s.tasks[task].Reading? && Next(w, s, Tick(task, o)).tasks[task].signer.Some?
    ensures var s := Run(w, START, es);
            var answer := Next(w, s, Tick(task, o)).tasks[task];
            answer.id == s.tasks[task].id
            && exists k :: k in s.clusters && s.clusters[k].id == answer.id && s.clusters[k].signer == answer.signer.value
  {
    LifecycleSafe(w, es);
    var s := Run(w, START, es);
    var name := s.tasks[task].name;
    assert GoodAnswer(w, s.tasks[task], s.lives);
    assert GoodCluster(w, name, s.clusters[name], s.lives);
  }

  lemma IndexStep(w: World, s: State, e: Event)
    requires forall id :: id in s.index ==> w.issuerOf(s.index[id]) == id
    ensures forall id :: id in Next(w, s, e).index ==> w.issuerOf(Next(w, s, e).index[id]) == id
  {
  }

  /** In every interleaving, names reused included: an ACTIVE cluster has a kubeconfig, and its
      endpoint and CA are the ones in that kubeconfig; and the signer that a lookup ends with is the
      signer of a cluster that has the requested issuer ID. */
  lemma {:induction false} LifecycleSafe(w: World, es: seq<Event>)
    requires UsableEvents(es)
    ensures var s := Run(w, START, es);
            && Consistent(w, s)
            && (forall k :: k in s.clusters && s.clusters[k].status == Active ==>
                  && s.clusters[k].kubeconfig != ""
                  && s.clusters[k].endpoint == w.endpointOf(s.clusters[k].kubeconfig)
                  && s.clusters[k].ca == Some(w.caOf(s.clusters[k].kubeconfig)))
            && (forall t :: t in s.tasks && s.tasks[t].Answered? && s.tasks[t].signer.Some? ==>
                  s.tasks[t].signer.value.issuerId == s.tasks[t].id && s.tasks[t].signer.value.key < s.lives)
            && (forall id :: SignerFor(s.clusters, s.index, id).Some? ==>
                  && SignerFor(s.clusters, s.index, id).value.issuerId == id
                  && exists k :: k in s.clusters && s.clusters[k].id == id && s.clusters[k].signer == SignerFor(s.clusters, s.index, id).value)
    decreases |es|
  {
    if |es| > 0 {
      var front := es[..|es| - 1];
      assert es[|es| - 1] in es;
      LifecycleSafe(w, front);
      NextConsistent(w, Run(w, START, front), es[|es| - 1]);
    }
    Announced(w, Run(w, START, es));
    Indexed(w, Run(w, START, es));
  }

  lemma Indexed(w: World, s: State)
    requires Consistent(w, s)
    ensures forall id :: SignerFor(s.clusters, s.index, id).Some? ==>
              && SignerFor(s.clusters, s.index, id).value.issuerId == id
              && exists k :: k in s.clusters && s.clusters[k].id == id && s.clusters[k].signer == SignerFor(s.clusters, s.index, id).value
  {
    forall id | SignerFor(s.clusters, s.index, id).Some?
      ensures SignerFor(s.clusters, s.index, id).value.issuerId == id
      ensures exists k :: k in s.clusters && s.clusters[k].id == id && s.clusters[k].signer == SignerFor(s.clusters, s.index, id).value
    {
      assert GoodCluster(w, s.index[id], s.clusters[s.index[id]], s.lives);
    }
  }

  lemma Announced(w: World, s: State)
    requires Consistent(w, s)
    ensures forall k :: k in s.clusters && s.clusters[k].status == Active ==>
              && s.clusters[k].kubeconfig != ""
              && s.clusters[k].endpoint == w.endpointOf(s.clusters[k].kubeconfig)
              && s.clusters[k].ca == Some(w.caOf(s.clusters[k].kubeconfig))
    ensures forall t :: t in s.tasks && s.tasks[t].Answered? && s.tasks[t].signer.Some? ==>
              s.tasks[t].signer.value.issuerId == s.tasks[t].id && s.tasks[t].signer.value.key < s.lives
  {
    forall k | k in s.clusters ensures GoodCluster(w, k, s.clusters[k], s.lives) {}
    forall t | t in s.tasks ensures GoodAnswer(w, s.tasks[t], s.lives) {}
  }

  /* ---------- Leaving CREATING ---------- */

  /** The cluster a step removes, if any. */
  function RemovedBy(s: State, e: Event): Option<Cluster> {
    if e.Tick? && e.task in s.tasks && s.tasks[e.task].Removing? && s.tasks[e.task].name in s.clusters
    then Some(s.clusters[s.tasks[e.task].name]) else None
  }

  /** No cluster is removed while it is CREATING. */
  ghost predicate Patient(w: World, es: seq<Event>) {
    forall i :: 0 <= i < |es| ==>
      var c := RemovedBy(Run(w, START, es[..i]), es[i]);
      c.Some? ==> c.value.status != Creating
  }

  /** Every CREATING cluster has exactly one creator at work, and creators work on nothing else. */
  ghost predicate OneCreator(s: State) {
    && (forall t :: t in s.tasks && IsCreator(s.tasks[t]) ==> WorksOnCreating(s, s.tasks[t]))
    && (forall t, u :: t in s.tasks && u in s.tasks && IsCreator(s.tasks[t]) && IsCreator(s.tasks[u]) && t != u ==>
          s.tasks[t].name != s.tasks[u].name)
    && (forall k :: k in s.clusters && s.clusters[k].status == Creating ==> HasCreator(s, k))
  }

  ghost predicate WorksOnCreating(s: State, t: Task)
    requires IsCreator(t)
  {
    t.name in s.clusters && s.clusters[t.name].status == Creating && s.clusters[t.name].life == t.life
  }

  ghost predicate HasCreator(s: State, k: string) {
    exists t :: t in s.tasks && IsCreator(s.tasks[t]) && s.tasks[t].name == k
  }

  /** A step rewrites no task but its own. */
  lemma OnlyItsTask(w: World, s: State, e: Event, t: nat)
    requires t != e.task
    ensures t in Next(w, s, e).tasks <==> t in s.tasks
    ensures t in s.tasks ==> Next(w, s, e).tasks[t] == s.tasks[t]
  {
  }

  /** What a step makes of its own task: a new creator comes with a new cluster, a creator stays one
      for the same cluster until it is done, and nothing else becomes one. */
  lemma ItsTask(w: World, s: State, e: Event)
    requires OneCreator(s) && e.task in Next(w, s, e).tasks && Next(w, s, e) != s
    ensures var s' := Next(w, s, e);
            var t' := s'.tasks[e.task];
            IsCreator(t') ==>
              && WorksOnCreating(s', t')
              && (if e.task in s.tasks then IsCreator(s.tasks[e.task]) && s.tasks[e.task].name == t'.name && s'.clusters == s.clusters
                  else t'.name !in s.clusters)
  {
  }

  lemma CreatorsAfter(w: World, s: State, e: Event)
    requires OneCreator(s) && (RemovedBy(s, e).Some? ==> RemovedBy(s, e).value.status != Creating)
    ensures var s' := Next(w, s, e);
            forall t :: t in s'.tasks && IsCreator(s'.tasks[t]) ==> WorksOnCreating(s', s'.tasks[t])
  {
    var s' := Next(w, s, e);
    if s' != s {
      forall t | t in s'.tasks && IsCreator(s'.tasks[t]) ensures WorksOnCreating(s', s'.tasks[t]) {
        if t == e.task {
          ItsTask(w, s, e);
        } else {
          OnlyItsTask(w, s, e, t);
          OtherCreatorUndisturbed(w, s, e, t);
        }
      }
    }
  }

  lemma OtherCreatorUndisturbed(w: World, s: State, e: Event, t: nat)
    requires OneCreator(s) && (RemovedBy(s, e).Some? ==> RemovedBy(s, e).value.status != Creating)
    requires t != e.task && t in s.tasks && IsCreator(s.tasks[t])
    ensures WorksOnCreating(Next(w, s, e), s.tasks[t])
  {
    assert WorksOnCreating(s, s.tasks[t]);
  }

  lemma NextOneCreator(w: World, s: State, e: Event)
    requires OneCreator(s) && (RemovedBy(s, e).Some? ==> RemovedBy(s, e).value.status != Creating)
    ensures OneCreator(Next(w, s, e))
  {
    var s' := Next(w, s, e);
    if s' != s {
      CreatorsAfter(w, s, e);
      forall t, u | t in s'.tasks && u in s'.tasks && IsCreator(s'.tasks[t]) && IsCreator(s'.tasks[u]) && t != u
        ensures s'.tasks[t].name != s'.tasks[u].name
      {
        CreatorsDiffer(w, s, e, t, u);
      }
      forall k | k in s'.clusters && s'.clusters[k].status == Creating ensures HasCreator(s', k) {
        StillHasCreator(w, s, e, k);
      }
    }
  }

  lemma CreatorsDiffer(w: World, s: State, e: Event, t: nat, u: nat)
    requires OneCreator(s) && Next(w, s, e) != s && t != u
    requires var s' := Next(w, s, e); t in s'.tasks && u in s'.tasks && IsCreator(s'.tasks[t]) && IsCreator(s'.tasks[u])
    ensures Next(w, s, e).tasks[t].name != Next(w, s, e).tasks[u].name
  {
    if t != e.task {
      OnlyItsTask(w, s, e, t);
      assert WorksOnCreating(s, s.tasks[t]);
    } else {
      ItsTask(w, s, e);
    }
    if u != e.task {
      OnlyItsTask(w, s, e, u);
      assert WorksOnCreating(s, s.tasks[u]);
    } else {
      ItsTask(w, s, e);
    }
  }

  lemma StillHasCreator(w: World, s: State, e: Event, k: string)
    requires OneCreator(s) && Next(w, s, e) != s
    requires k in Next(w, s, e).clusters && Next(w, s, e).clusters[k].status == Creating
    ensures HasCreator(Next(w, s, e), k)
  {
    var s' := Next(w, s, e);
    ClusterStep(w, s, e, k);
    if k in s.clusters {
      var t :| t in s.tasks && IsCreator(s.tasks[t]) && s.tasks[t].name == k;
      if t != e.task {
        OnlyItsTask(w, s, e, t);
      }
      assert t in s'.tasks && IsCreator(s'.tasks[t]) && s'.tasks[t].name == k;
    } else {
      assert e.task in s'.tasks && s'.tasks[e.task] == Indexing(k, s.lives);
    }
  }

  /** What one step can do to one cluster's status. */
  lemma StatusStep(w: World, s: State, e: Event, k: string)
    requires OneCreator(s) && (RemovedBy(s, e).Some? ==> RemovedBy(s, e).value.status != Creating)
    requires k in s.clusters && k in Next(w, s, e).clusters && Next(w, s, e).clusters[k].life == s.clusters[k].life
    ensures s.clusters[k].status != Creating ==> Next(w, s, e).clusters[k].status == s.clusters[k].status
  {
    ClusterStep(w, s, e, k);
    if e.Tick? && e.task in s.tasks && s.tasks[e.task].Provisioning? {
      assert WorksOnCreating(s, s.tasks[e.task]);
    }
  }

  ghost predicate HasLife(s: State, k: string, life: nat) {
    k in s.clusters && s.clusters[k].life == life
  }

  lemma {:induction false} PatientRunsHaveOneCreator(w: World, es: seq<Event>)
    requires Patient(w, es)
    ensures OneCreator(Run(w, START, es))
    decreases |es|
  {
    if |es| > 0 {
      var n := |es| - 1;
      PrefixPatient(w, es, n);
      PatientRunsHaveOneCreator(w, es[..n]);
      NextOneCreator(w, Run(w, START, es[..n]), es[n]);
    }
  }

  lemma PrefixPatient(w: World, es: seq<Event>, n: nat)
    requires Patient(w, es) && n <= |es|
    ensures Patient(w, es[..n])
  {
    forall i | 0 <= i < n
      ensures var c := RemovedBy(Run(w, START, es[..n][..i]), es[..n][i]); c.Some? ==> c.value.status != Creating
    {
      assert es[..n][..i] == es[..i];
    }
  }

  lemma {:induction false} LivesGrow(w: World, es: seq<Event>, i: nat, j: nat)
    requires i <= j <= |es|
    ensures Run(w, START, es[..i]).lives <= Run(w, START, es[..j]).lives
    decreases j
  {
    if i < j {
      assert es[..j][..j - 1] == es[..j - 1] && es[..j][j - 1] == es[j - 1];
      LivesGrow(w, es, i, j - 1);
    }
  }

  /** If no cluster is removed while CREATING, a cluster leaves CREATING at most once: from the first
      moment its status is ACTIVE or FAILED, it keeps that status for the rest of its life. */
  lemma {:induction false} LeavesCreatingOnce(w: World, es: seq<Event>, i: nat, j: nat, k: string, life: nat)
    requires Patient(w, es) && UsableEvents(es) && i <= j <= |es|
    requires HasLife(Run(w, START, es[..i]), k, life) && HasLife(Run(w, START, es[..j]), k, life)
    requires Run(w, START, es[..i]).clusters[k].status != Creating
    ensures Run(w, START, es[..j]).clusters[k].status == Run(w, START, es[..i]).clusters[k].status
    decreases j
  {
    if i < j {
      LivedJustBefore(w, es, i, j, k, life);
      LeavesCreatingOnce(w, es, i, j - 1, k, life);
      StatusKept(w, es, j, k, life);
    }
  }

  lemma StatusKept(w: World, es: seq<Event>, j: nat, k: string, life: nat)
    requires Patient(w, es) && 0 < j <= |es|
    requires HasLife(Run(w, START, es[..j - 1]), k, life) && HasLife(Run(w, START, es[..j]), k, life)
    requires Run(w, START, es[..j - 1]).clusters[k].status != Creating
    ensures Run(w, START, es[..j]).clusters[k].status == Run(w, START, es[..j - 1]).clusters[k].status
  {
    assert es[..j][..j - 1] == es[..j - 1] && es[..j][j - 1] == es[j - 1];
    PrefixPatient(w, es, j - 1);
    PatientRunsHaveOneCreator(w, es[..j - 1]);
    StatusStep(w, Run(w, START, es[..j - 1]), es[j - 1], k);
  }

  lemma LivedJustBefore(w: World, es: seq<Event>, i: nat, j: nat, k: string, life: nat)
    requires UsableEvents(es) && i < j <= |es|
    requires HasLife(Run(w, START, es[..i]), k, life) && HasLife(Run(w, START, es[..j]), k, life)
    ensures HasLife(Run(w, START, es[..j - 1]), k, life)
  {
    assert es[..j][..j - 1] == es[..j - 1] && es[..j][j - 1] == es[j - 1];
    PrefixUsable(es, i);
    LifecycleSafe(w, es[..i]);
    assert GoodCluster(w, k, Run(w, START, es[..i]).clusters[k], Run(w, START, es[..i]).lives);
    LivesGrow(w, es, i, j - 1);
    ClusterStep(w, Run(w, START, es[..j - 1]), es[j - 1], k);
  }

  lemma PrefixUsable(es: seq<Event>, n: nat)
    requires UsableEvents(es) && n <= |es|
    ensures UsableEvents(es[..n])
  {
  }

  /** One more step of a run. */
  lemma Then(w: World, xs: seq<Event>, m: State, e: Event, t: State) returns (es: seq<Event>)
    requires Run(w, START, xs) == m && Next(w, m, e) == t && UsableEvents(xs) && (e.Tick? ==> Usable(e.outcome))
    ensures es == xs + [e] && Run(w, START, es) == t && UsableEvents(es)
  {
    es := xs + [e];
    assert es[..|es| - 1] == xs;
  }

  /** A name is created, indexed, and its provisioner starts. */
  lemma ProvisioningStarted(w: World, name: string, o: Outcome) returns (es: seq<Event>)
    requires Usable(o)
    ensures UsableEvents(es) && |es| == 3
    ensures Run(w, START, es) == State(map[name := NewCluster(w, name, 0)], map[w.issuerOf(name) := name], 1, map[0 := Provisioning(name, 0)], Some(0))
  {
    var c := NewCluster(w, name, 0);
    var id := w.issuerOf(name);
    es := Then(w, [], START, Create(0, name), State(map[name := c], map[], 1, map[0 := Indexing(name, 0)], None));
    es := Then(w, es, State(map[name := c], map[], 1, map[0 := Indexing(name, 0)], None), Tick(0, o),
               State(map[name := c], map[id := name], 1, map[0 := Queued(name, 0)], None));
    es := Then(w, es, State(map[name := c], map[id := name], 1, map[0 := Queued(name, 0)], None), Tick(0, o),
               State(map[name := c], map[id := name], 1, map[0 := Provisioning(name, 0)], Some(0)));
  }

  /** Deleting while CREATING breaks this: the old provisioner finds the new cluster of the same name
      and fails it, and the new provisioner makes it ACTIVE afterwards. */
  lemma ImpatientStatusChangesTwice(w: World, name: string, k: string) returns (es: seq<Event>, i: nat)
    requires k != ""
    ensures UsableEvents(es) && i < |es|
    ensures HasLife(Run(w, START, es[..i]), name, 1) && Run(w, START, es[..i]).clusters[name].status == Failed
    ensures HasLife(Run(w, START, es), name, 1) && Run(w, START, es).clusters[name].status == Active
  {
    var s7;
    es, s7 := FailedByPredecessor(w, name, k);
    i := |es|;
    var first := es;
    var go := Success(k);
    var s8 := s7.(tasks := s7.tasks[2 := Queued(name, 1)], index := s7.index[w.issuerOf(name) := name]);
    es := Then(w, es, s7, Tick(2, go), s8);
    var s9 := s8.(tasks := s8.tasks[2 := Provisioning(name, 1)], busy := Some(2));
    es := Then(w, es, s8, Tick(2, go), s9);
    es := Then(w, es, s9, Tick(2, go), Next(w, s9, Tick(2, go)));
    assert es[..i] == first;
  }

  lemma FailedByPredecessor(w: World, name: string, k: string) returns (es: seq<Event>, s7: State)
    requires k != ""
    ensures UsableEvents(es) && Run(w, START, es) == s7
    ensures s7.clusters == map[name := NewCluster(w, name, 1).(status := Failed)] && s7.busy == None
    ensures 2 in s7.tasks && s7.tasks[2] == Indexing(name, 1)
  {
    var go, id := Success(k), w.issuerOf(name);
    var at := map[id := name];
    es := ProvisioningStarted(w, name, go);
    var s3 := State(map[name := NewCluster(w, name, 0)], at, 1, map[0 := Provisioning(name, 0)], Some(0));
    var s4 := s3.(tasks := s3.tasks[1 := Removing(name)]);
    es := Then(w, es, s3, Delete(1, name), s4);
    var s5 := State(map[], at, 1, s4.tasks[1 := Unindexing(id)], Some(0));
    assert s4.clusters - {name} == map[];
    es := Then(w, es, s4, Tick(1, go), s5);
    var s6 := State(map[name := NewCluster(w, name, 1)], at, 2, s5.tasks[2 := Indexing(name, 1)], Some(0));
    es := Then(w, es, s5, Create(2, name), s6);
    s7 := State(map[name := NewCluster(w, name, 1).(status := Failed)], at, 2, s6.tasks[0 := Finished], None);
    assert s6.clusters[name := Provisioned(w, Failure, s6.clusters[name])] == s7.clusters;
    es := Then(w, es, s6, Tick(0, Failure), s7);
  }

  /* ---------- The index finds every cluster, when same-name requests do not overlap ---------- */

  ghost predicate PendingIndex(s: State, name: string) {
    exists t :: t in s.tasks && s.tasks[t].Indexing? && s.tasks[t].name == name
  }

  ghost predicate PendingUnindex(s: State, id: string) {
    exists t :: t in s.tasks && s.tasks[t] == Unindexing(id)
  }

  /** A name is not created again before the last deletion of it has cleaned the index, and not
      removed before its creation has filled it. */
  ghost predicate Orderly(w: World, s: State, e: Event) {
    && (e.Create? && e.name !in s.clusters ==> !PendingUnindex(s, w.issuerOf(e.name)))
    && (RemovedBy(s, e).Some? ==> !PendingIndex(s, RemovedBy(s, e).value.name))
  }

  ghost predicate IndexComplete(w: World, s: State) {
    && (forall k :: k in s.clusters ==> PendingIndex(s, k) || (w.issuerOf(k) in s.index && s.index[w.issuerOf(k)] == k))
    && (forall k :: k in s.clusters ==> !PendingUnindex(s, w.issuerOf(k)))
    && (forall t :: t in s.tasks && s.tasks[t].Indexing? ==> s.tasks[t].name in s.clusters)
    && (forall t :: t in s.tasks && s.tasks[t].Unindexing? ==> exists k :: w.issuerOf(k) == s.tasks[t].id && k !in s.clusters)
  }

  ghost predicate InjectiveIssuer(w: World) {
    forall a, b :: w.issuerOf(a) == w.issuerOf(b) ==> a == b
  }

  lemma NextIndexComplete(w: World, s: State, e: Event)
    requires InjectiveIssuer(w) && Consistent(w, s) && IndexComplete(w, s) && Orderly(w, s, e)
    ensures IndexComplete(w, Next(w, s, e))
  {
    var s' := Next(w, s, e);
    if s' != s {
      forall k | k in s'.clusters
        ensures PendingIndex(s', k) || (w.issuerOf(k) in s'.index && s'.index[w.issuerOf(k)] == k)
        ensures !PendingUnindex(s', w.issuerOf(k))
      {
        IndexedAfter(w, s, e, k);
        NotUnindexedAfter(w, s, e, k);
      }
      forall t | t in s'.tasks && s'.tasks[t].Unindexing? ensures exists k :: w.issuerOf(k) == s'.tasks[t].id && k !in s'.clusters {
        UnindexingName(w, s, e, t);
      }
      forall t | t in s'.tasks && s'.tasks[t].Indexing? ensures s'.tasks[t].name in s'.clusters {
        IndexingName(w, s, e, t);
      }
    }
  }

  lemma IndexedAfter(w: World, s: State, e: Event, k: string)
    requires InjectiveIssuer(w) && Consistent(w, s) && IndexComplete(w, s)
    requires k in Next(w, s, e).clusters && Next(w, s, e) != s
    ensures var s' := Next(w, s, e);
            PendingIndex(s', k) || (w.issuerOf(k) in s'.index && s'.index[w.issuerOf(k)] == k)
  {
    var s' := Next(w, s, e);
    ClusterStep(w, s, e, k);
    if k !in s.clusters {
      assert e.task in s'.tasks && s'.tasks[e.task] == Indexing(k, s.lives);
    } else if PendingIndex(s, k) {
      PendingFiled(w, s, e, k);
    } else {
      StaysIndexed(w, s, e, k);
    }
  }

  lemma PendingFiled(w: World, s: State, e: Event, k: string)
    requires PendingIndex(s, k) && Next(w, s, e) != s
    ensures var s' := Next(w, s, e);
            PendingIndex(s', k) || (w.issuerOf(k) in s'.index && s'.index[w.issuerOf(k)] == k)
  {
    var t :| t in s.tasks && s.tasks[t].Indexing? && s.tasks[t].name == k;
    if t != e.task {
      OnlyItsTask(w, s, e, t);
      assert t in Next(w, s, e).tasks;
    }
  }

  lemma StaysIndexed(w: World, s: State, e: Event, k: string)
    requires InjectiveIssuer(w) && w.issuerOf(k) in s.index && s.index[w.issuerOf(k)] == k && !PendingUnindex(s, w.issuerOf(k))
    ensures var s' := Next(w, s, e); w.issuerOf(k) in s'.index && s'.index[w.issuerOf(k)] == k
  {
    assert e.Tick? && e.task in s.tasks ==> s.tasks[e.task] != Unindexing(w.issuerOf(k));
  }

  lemma NotUnindexedAfter(w: World, s: State, e: Event, k: string)
    requires InjectiveIssuer(w) && Consistent(w, s) && IndexComplete(w, s) && Orderly(w, s, e)
    requires k in Next(w, s, e).clusters && Next(w, s, e) != s
    ensures !PendingUnindex(Next(w, s, e), w.issuerOf(k))
  {
    var s' := Next(w, s, e);
    ClusterStep(w, s, e, k);
    assert !PendingUnindex(s, w.issuerOf(k));
    forall t | t in s'.tasks ensures s'.tasks[t] != Unindexing(w.issuerOf(k)) {
      if t != e.task {
        OnlyItsTask(w, s, e, t);
      } else if e.Tick? && s.tasks[t].Removing? && s.tasks[t].name in s.clusters {
        assert s.clusters[s.tasks[t].name].id == w.issuerOf(s.tasks[t].name);
      }
    }
  }

  /** A cluster is gone after a step only if the step removed it. */
  lemma OnlyRemovedGo(w: World, s: State, e: Event, k: string)
    requires Consistent(w, s) && k in s.clusters && (RemovedBy(s, e).Some? ==> RemovedBy(s, e).value.name != k)
    ensures k in Next(w, s, e).clusters
  {
    if RemovedBy(s, e).Some? {
      var name := s.tasks[e.task].name;
      assert GoodCluster(w, name, s.clusters[name], s.lives);
    }
  }

  /** A cluster is new after a step only if the step created it. */
  lemma OnlyCreatedCome(w: World, s: State, e: Event, k: string)
    requires k !in s.clusters && !(e.Create? && e.name == k)
    ensures k !in Next(w, s, e).clusters
  {
  }

  lemma UnindexingName(w: World, s: State, e: Event, t: nat)
    requires Consistent(w, s) && IndexComplete(w, s) && Orderly(w, s, e) && Next(w, s, e) != s
    requires t in Next(w, s, e).tasks && Next(w, s, e).tasks[t].Unindexing?
    ensures exists k :: w.issuerOf(k) == Next(w, s, e).tasks[t].id && k !in Next(w, s, e).clusters
  {
    if t != e.task {
      OnlyItsTask(w, s, e, t);
      var k :| w.issuerOf(k) == s.tasks[t].id && k !in s.clusters;
      assert s.tasks[t] == Unindexing(w.issuerOf(k));
      assert PendingUnindex(s, w.issuerOf(k));
      OnlyCreatedCome(w, s, e, k);
    } else {
      var k := s.tasks[t].name;
      assert GoodCluster(w, k, s.clusters[k], s.lives);
    }
  }

  lemma IndexingName(w: World, s: State, e: Event, t: nat)
    requires Consistent(w, s) && IndexComplete(w, s) && Orderly(w, s, e) && Next(w, s, e) != s
    requires t in Next(w, s, e).tasks && Next(w, s, e).tasks[t].Indexing?
    ensures Next(w, s, e).tasks[t].name in Next(w, s, e).clusters
  {
    if t != e.task {
      OnlyItsTask(w, s, e, t);
      assert PendingIndex(s, s.tasks[t].name);
      OnlyRemovedGo(w, s, e, s.tasks[t].name);
    }
  }

  ghost predicate OrderlyRun(w: World, es: seq<Event>) {
    forall i :: 0 <= i < |es| ==> Orderly(w, Run(w, START, es[..i]), es[i])
  }

  /** When requests for one name do not overlap, every cluster that has been indexed is found through
      its issuer ID, with its own signer, throughout the run. */
  lemma IndexFindsEveryCluster(w: World, es: seq<Event>)
    requires InjectiveIssuer(w) && UsableEvents(es) && OrderlyRun(w, es)
    ensures var s := Run(w, START, es);
            && IndexComplete(w, s)
            && forall k :: k in s.clusters && !PendingIndex(s, k) ==>
                 SignerFor(s.clusters, s.index, s.clusters[k].id) == Some(s.clusters[k].signer)
  {
    OrderlyRunsKeepIndex(w, es);
    LifecycleSafe(w, es);
    CompleteIndexFinds(w, Run(w, START, es));
  }

  lemma CompleteIndexFinds(w: World, s: State)
    requires Consistent(w, s) && IndexComplete(w, s)
    ensures forall k :: k in s.clusters && !PendingIndex(s, k) ==>
              SignerFor(s.clusters, s.index, s.clusters[k].id) == Some(s.clusters[k].signer)
  {
  }

  lemma {:induction false} OrderlyRunsKeepIndex(w: World, es: seq<Event>)
    requires InjectiveIssuer(w) && UsableEvents(es) && OrderlyRun(w, es)
    ensures IndexComplete(w, Run(w, START, es))
    decreases |es|
  {
    if |es| > 0 {
      var n := |es| - 1;
      PrefixUsable(es, n);
      PrefixOrderly(w, es, n);
      OrderlyRunsKeepIndex(w, es[..n]);
      LifecycleSafe(w, es[..n]);
      assert Orderly(w, Run(w, START, es[..n]), es[n]);
      NextIndexComplete(w, Run(w, START, es[..n]), es[n]);
    }
  }

  lemma PrefixOrderly(w: World, es: seq<Event>, n: nat)
    requires OrderlyRun(w, es) && n <= |es|
    ensures OrderlyRun(w, es[..n])
  {
    forall i | 0 <= i < n ensures Orderly(w, Run(w, START, es[..n][..i]), es[..n][i]) {
      assert es[..n][..i] == es[..i];
    }
  }

  /** When they do overlap, a live cluster can be lost to the index for good: the deletion of its
      predecessor cleans the index after the new cluster has filled it. */
  lemma OverlapLosesTheIndex(w: World, name: string, k: string) returns (es: seq<Event>)
    requires k != ""
    ensures UsableEvents(es)
    ensures var s := Run(w, START, es);
            && name in s.clusters && s.clusters[name].status == Active
            && (forall t :: t in s.tasks ==> s.tasks[t] == Finished)
            && SignerFor(s.clusters, s.index, s.clusters[name].id) == None
  {
    var go := Success(k);
    var s6;
    es, s6 := RemovedNotYetUnindexed(w, name, k);
    var id, c := w.issuerOf(name), NewCluster(w, name, 1);
    var s7 := State(map[name := c], s6.index, 2, s6.tasks[2 := Indexing(name, 1)], None);
    es := Then(w, es, s6, Create(2, name), s7);
    var s8 := s7.(index := s7.index[id := name], tasks := s7.tasks[2 := Queued(name, 1)]);
    es := Then(w, es, s7, Tick(2, go), s8);
    var s9 := s8.(index := s8.index - {id}, tasks := s8.tasks[1 := Finished]);
    es := Then(w, es, s8, Tick(1, go), s9);
    var s10 := s9.(tasks := s9.tasks[2 := Provisioning(name, 1)], busy := Some(2));
    es := Then(w, es, s9, Tick(2, go), s10);
    es := Then(w, es, s10, Tick(2, go), Next(w, s10, Tick(2, go)));
  }

  lemma RemovedNotYetUnindexed(w: World, name: string, k: string) returns (es: seq<Event>, s6: State)
    requires k != ""
    ensures UsableEvents(es) && Run(w, START, es) == s6
    ensures s6 == State(map[], map[w.issuerOf(name) := name], 1, map[0 := Finished, 1 := Unindexing(w.issuerOf(name))], None)
  {
    var go, id := Success(k), w.issuerOf(name);
    var at := map[id := name];
    es := ProvisioningStarted(w, name, go);
    var s3 := State(map[name := NewCluster(w, name, 0)], at, 1, map[0 := Provisioning(name, 0)], Some(0));
    var s4 := State(map[name := Provisioned(w, go, NewCluster(w, name, 0))], at, 1, map[0 := Finished], None);
    assert s3.clusters[name := Provisioned(w, go, s3.clusters[name])] == s4.clusters;
    es := Then(w, es, s3, Tick(0, go), s4);
    var s5 := s4.(tasks := s4.tasks[1 := Removing(name)]);
    es := Then(w, es, s4, Delete(1, name), s5);
    s6 := State(map[], at, 1, map[0 := Finished, 1 := Unindexing(id)], None);
    assert s5.clusters - {name} == map[];
    es := Then(w, es, s5, Tick(1, go), s6);
  }
}
