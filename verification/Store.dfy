/** internal/store/store.go: the registry of clusters. Each method is one critical section. */
module Store {
  import opened Text
  import opened Rbac

  datatype Status = Creating | Active | Failed

  /** A cluster's signing key, and the issuer ID in its issuer URL. */
  datatype Signer = Signer(issuerId: string, key: nat)

  /** What the registry holds of a cluster. `life` tells two clusters of the same name apart; in the
      source they are different records. An unset kubeconfig or endpoint is the empty string. */
  datatype Cluster = Cluster(name: string, id: string, life: nat, status: Status, kubeconfig: string,
                             endpoint: string, ca: Option<string>, signer: Signer)

  class Store {
    var clusters: map<string, Cluster>

    constructor ()
      ensures Valid() && clusters == map[]
    {
      clusters := map[];
    }

    /** Every cluster is stored under its own name. */
    ghost predicate Valid()
      reads this
    {
      forall k :: k in clusters ==> clusters[k].name == k
    }

    /** Refuses to overwrite. */
    method Add(c: Cluster) returns (ok: bool)
      requires Valid()
      modifies this
      ensures Valid() && (ok <==> c.name !in old(clusters))
      ensures clusters == if ok then old(clusters)[c.name := c] else old(clusters)
    {
      if c.name in clusters {
        return false;
      }
      clusters := clusters[c.name := c];
      return true;
    }

    method Get(name: string) returns (c: Option<Cluster>)
      requires Valid()
      ensures c.Some? <==> name in clusters
      ensures c.Some? ==> c.value == clusters[name] && c.value.name == name
    {
      return if name in clusters then Some(clusters[name]) else None;
    }

    method Delete(name: string) returns (c: Option<Cluster>)
      requires Valid()
      modifies this
      ensures Valid() && clusters == old(clusters) - {name}
      ensures c == if name in old(clusters) then Some(old(clusters)[name]) else None
    {
      if name !in clusters {
        assert clusters - {name} == clusters;
        return None;
      }
      c := Some(clusters[name]);
      clusters := clusters - {name};
    }

    method Update(name: string, f: Cluster -> Cluster) returns (ok: bool)
      requires Valid() && forall c :: f(c).name == c.name
      modifies this
      ensures Valid() && (ok <==> name in old(clusters))
      ensures clusters == Updated(old(clusters), name, f)
    {
      if name !in clusters {
        return false;
      }
      clusters := clusters[name := f(clusters[name])];
      return true;
    }

    /** Every name once, in order: the one list with this property, whatever the map's order. */
    method Names() returns (out: seq<string>)
      requires Valid()
      ensures StrictlySorted(out, Less) && Elements(out) == clusters.Keys
    {
      out := [];
      var rest := clusters.Keys;
      while rest != {}
        invariant rest <= clusters.Keys && NoDuplicates(out) && Elements(out) == clusters.Keys - rest
        decreases rest
      {
        var name :| name in rest;
        rest := rest - {name};
        AppendNew(out, name);
        out := out + [name];
      }
      SortStringsStrict(out);
      assert Elements(Sort(out, Less)) == Elements(out);
      out := Sort(out, Less);
    }
  }

  function Updated(clusters: map<string, Cluster>, name: string, f: Cluster -> Cluster): map<string, Cluster> {
    if name in clusters then clusters[name := f(clusters[name])] else clusters
  }
}
