/** internal/api/webhook.go: the token review, from bearer token to Kubernetes identity. */
module Webhook {
  import opened Text
  import opened Model
  import Arn
  import AwsAuthCache
  import Resolver
  import Token

  function Principal(id: Token.Identity): Resolver.AwsIdentity {
    Resolver.AwsIdentity(id.arn, id.canonical, id.account, id.userId, id.session)
  }

  /** The callers that the resolver is asked about are exactly the possible ones: whoever STS may
      name, with the canonical form and the session name of the ARN it gave. */
  lemma CallersArePossible(aws: Resolver.AwsIdentity)
    ensures Resolver.Possible(aws) <==> exists caller, id :: Token.Answers(caller, Some(id)) && Principal(id) == aws
  {
    if Resolver.Possible(aws) {
      var id := Token.Identity(aws.arn, aws.canonical, aws.account, aws.userId, aws.session);
      assert Token.Answers(Some(Token.Caller(aws.arn, aws.account, aws.userId)), Some(id)) && Principal(id) == aws;
    }
  }

  /** The review ends as the resolver decides for the caller STS named, or with a refusal if that
      caller has no identity. */
  ghost predicate Decided(mode: string, entries: map<string, Entry>, auth: Option<Resolver.AwsAuth>,
                          caller: Option<Token.Caller>, out: Option<Resolver.KubeIdentity>) {
    exists id :: Token.Answers(caller, id)
      && (if id.None? then out == None
          else Resolver.Gives(Resolver.Resolver(mode, entries, auth), Principal(id.value), out))
  }

  /** Whoever is authenticated was named by STS, and its user ID is built from what STS said. */
  lemma DecidedIsNamed(mode: string, entries: map<string, Entry>, auth: Option<Resolver.AwsAuth>,
                       caller: Option<Token.Caller>, out: Option<Resolver.KubeIdentity>)
    requires Decided(mode, entries, auth, caller, out) && out.Some?
    ensures caller.Some? && out.value.uid == "aws-iam-authenticator:" + caller.value.account + ":" + caller.value.userId
    ensures exists aws :: Resolver.Possible(aws) && aws.arn == caller.value.arn && aws.account == caller.value.account
              && aws.userId == caller.value.userId && Resolver.PerMode(Resolver.Resolver(mode, entries, auth), aws, out)
  {
    var id :| Token.Answers(caller, id) && id.Some? && Resolver.Gives(Resolver.Resolver(mode, entries, auth), Principal(id.value), out);
    Resolver.GivesIsPerMode(Resolver.Resolver(mode, entries, auth), Principal(id.value), out);
    assert Resolver.Possible(Principal(id.value));
    Resolver.PerModeNames(Resolver.Resolver(mode, entries, auth), Principal(id.value), out);
  }

  /** STS is asked only for a known cluster and a token that passed every structural check, and once;
      without STS nobody is authenticated and aws-auth is not consulted. After STS the resolver
      decides, for the canonical form of the ARN that STS gave, with the aws-auth of the cache. */
  method HandleTokenReview(cluster: string, known: bool, mode: string, entries: map<string, Entry>,
                           verifier: Token.Verifier, cache: AwsAuthCache.Cache, token: string,
                           now: int, reply: AwsAuthCache.Reply, later: int)
    returns (out: Option<Resolver.KubeIdentity>)
    modifies verifier`calls, cache
    ensures !known ==> verifier.calls == old(verifier.calls)
    ensures known && Token.CertainlyPasses(verifier.decoders, verifier.endpoint, token, now) ==> verifier.calls != old(verifier.calls)
    ensures verifier.calls == old(verifier.calls) ==> out == None && cache.entries == old(cache.entries)
    ensures verifier.calls != old(verifier.calls) ==>
              exists u, q :: Token.Passes(verifier.decoders, verifier.endpoint, token, u, q, now)
                && verifier.calls == old(verifier.calls) + [(u.text, verifier.clusterId)]
                && Decided(mode, entries, AwsAuthCache.Consulted(cache.parse, old(cache.entries), cluster, reply, now),
                           verifier.sts(u.text, verifier.clusterId), out)
  {
    if !known {
      return None;
    }
    var id := verifier.Verify(token, now);
    if id.None? {
      return None;
    }
    var auth;
    var hit := cache.Lookup(cluster, now);
    if hit.Some? {
      auth := hit.value;
    } else {
      auth := cache.Conclude(cluster, reply, later);
    }
    out := Resolver.Resolve(Resolver.Resolver(mode, entries, auth), Principal(id.value));
  }
}
