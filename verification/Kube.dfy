/** internal/kube/client.go: creating, replacing and deleting RBAC objects through an API server. */
module Kube {
  import opened Text
  import opened Rbac

  /** A binding as the server holds it; `owned` is the managed-by label. */
  datatype Obj = Obj(role: string, subject: string, owned: bool)

  datatype Error = StatusError(code: int) | Wrapped(inner: Error) | Transport

  datatype Verb = Post | Put | Delete

  const NOT_FOUND := 404
  const CONFLICT := 409
  const UNPROCESSABLE := 422

  /** The status code at the bottom of a chain of wrapped errors. */
  function StatusOf(e: Error): Option<int> {
    match e
    case StatusError(code) => Some(code)
    case Wrapped(inner) => StatusOf(inner)
    case Transport => None
  }

  method AsStatusError(err: Error) returns (code: Option<int>)
    ensures code == StatusOf(err)
  {
    var e := err;
    while true
      invariant StatusOf(e) == StatusOf(err)
      decreases e
    {
      match e
      case StatusError(c) => return Some(c);
      case Transport => return None;
      case Wrapped(inner) => e := inner;
    }
  }

  method HasStatus(err: Option<Error>, code: int) returns (yes: bool)
    ensures yes <==> err.Some? && StatusOf(err.value) == Some(code)
  {
    if err.None? {
      return false;
    }
    var status := AsStatusError(err.value);
    return status == Some(code);
  }

  predicate Placeable(path: Path, namespaces: set<string>) {
    path.ns == "" || path.ns in namespaces
  }

  /** How the API server answers a request: `None` for success, otherwise the status code. A
      RoleBinding needs its namespace, and a role reference cannot be changed by a PUT. */
  function Reply(verb: Verb, path: Path, obj: Obj, objects: map<Path, Obj>, namespaces: set<string>): Option<int> {
    match verb
    case Post =>
      if !Placeable(path, namespaces) then Some(NOT_FOUND)
      else if path in objects then Some(CONFLICT)
      else None
    case Put =>
      if path !in objects then Some(NOT_FOUND)
      else if objects[path].role != obj.role then Some(UNPROCESSABLE)
      else None
    case Delete =>
      if path !in objects then Some(NOT_FOUND) else None
  }

  function Effect(verb: Verb, path: Path, obj: Obj, objects: map<Path, Obj>, namespaces: set<string>): map<Path, Obj> {
    if Reply(verb, path, obj, objects, namespaces).Some? then objects
    else if verb == Delete then objects - {path}
    else objects[path := obj]
  }

  /** What each refusal means. */
  lemma RefusalMeans(verb: Verb, path: Path, obj: Obj, objects: map<Path, Obj>, namespaces: set<string>)
    ensures var code := Reply(verb, path, obj, objects, namespaces);
            && (code == Some(409) <==> verb == Post && path in objects && (path.ns == "" || path.ns in namespaces))
            && (code == Some(422) <==> verb == Put && path in objects && objects[path].role != obj.role)
            && (code == Some(404) <==> if verb == Post then path.ns != "" && path.ns !in namespaces else path !in objects)
            && (code.Some? ==> code.value in {404, 409, 422})
  {
  }

  /** One cluster's API server. When it is not `reliable`, any request may fail in transport, before
      or after it took effect. */
  class ApiServer {
    const reliable: bool
    var objects: map<Path, Obj>
    var namespaces: set<string>
    /** How many requests have failed in transport so far. */
    ghost var faults: nat

    constructor (reliable: bool, namespaces: set<string>)
      requires "" !in namespaces
      ensures Valid() && this.reliable == reliable && this.namespaces == namespaces && objects == map[] && faults == 0
    {
      this.reliable := reliable;
      this.namespaces := namespaces;
      this.objects := map[];
      this.faults := 0;
    }

    ghost predicate Valid()
      reads this
    {
      && "" !in namespaces
      && forall p :: p in objects ==> Placeable(p, namespaces)
    }

    method Do(verb: Verb, path: Path, obj: Obj) returns (err: Option<Error>)
      requires Valid()
      modifies this`objects, this`faults
      ensures Valid()
      ensures var reply := old(Reply(verb, path, obj, objects, namespaces));
              || (&& objects == old(Effect(verb, path, obj, objects, namespaces))
                  && err == (if reply.None? then None else Some(StatusError(reply.value)))
                  && faults == old(faults))
              || (&& !reliable && err == Some(Wrapped(Transport)) && faults == old(faults) + 1
                  && (objects == old(objects) || objects == old(Effect(verb, path, obj, objects, namespaces))))
    {
      var lost, applied := false, true;
      if !reliable {
        lost := *;
        applied := *;
      }
      var reply := Reply(verb, path, obj, objects, namespaces);
      if !lost || applied {
        objects := Effect(verb, path, obj, objects, namespaces);
      }
      if lost {
        faults := faults + 1;
        return Some(Wrapped(Transport));
      }
      return if reply.None? then None else Some(StatusError(reply.value));
    }

    method ListNamespaceNames() returns (names: Option<seq<string>>)
      requires Valid()
      modifies this`faults
      ensures Valid()
      ensures names.Some? ==> NoDuplicates(names.value) && Elements(names.value) == namespaces
      ensures faults == if names.Some? then old(faults) else old(faults) + 1
      ensures reliable ==> names.Some?
    {
      if !reliable {
        var lost: bool := *;
        if lost {
          faults := faults + 1;
          return None;
        }
      }
      var list := [];
      var rest := namespaces;
      while rest != {}
        invariant rest <= namespaces && NoDuplicates(list) && Elements(list) == namespaces - rest
        invariant Valid() && faults == old(faults)
        decreases rest
      {
        var n :| n in rest;
        rest := rest - {n};
        AppendNew(list, n);
        list := list + [n];
      }
      return Some(list);
    }

    /** POST, then PUT on conflict, then DELETE and POST again if the PUT is refused. On success
        exactly the wanted object is in place; whatever happens nothing else changes, and only a
        changed role (or a transport failure) makes the old object go away in between. */
    method CreateOrReplace(path: Path, obj: Obj) returns (err: Option<Error>, ghost recreated: bool)
      requires Valid()
      modifies this`objects, this`faults
      ensures Valid()
      ensures objects - {path} == old(objects) - {path}
      ensures err.None? ==> objects == old(objects)[path := obj]
      ensures path in objects ==> objects[path] == obj || (path in old(objects) && objects[path] == old(objects)[path])
      ensures reliable ==> (err.None? <==> Placeable(path, namespaces))
      ensures reliable ==> (recreated <==> path in old(objects) && old(objects)[path].role != obj.role)
    {
      recreated := false;
      err := Do(Post, path, obj);
      if err.None? {
        return;
      }
      var exists_ := HasStatus(err, CONFLICT);
      if !exists_ {
        return;
      }
      var putErr := Do(Put, path, obj);
      if putErr.None? {
        err := None;
        return;
      }
      recreated := true;
      var delErr := Do(Delete, path, obj);
      if delErr.Some? {
        err := putErr;
        return;
      }
      err := Do(Post, path, obj);
    }
  }
}
