/** internal/token/token.go: the checks on a presigned URL that run before STS is asked. */
module Token {
  import opened Text
  import opened Rbac
  import Arn

  type Query = map<string, seq<string>>

  /** A decoded and parsed token. `text` is the URL that STS would be asked for. */
  datatype Url = Url(scheme: string, host: string, path: string, query: Query, text: string)

  const PREFIX := "k8s-aws-v1."
  const CLUSTER_HEADER := "x-k8s-aws-id"
  const MAX_TOKEN := 4096
  const MAX_EXPIRES := 900
  const ACTION := "action"
  const SIGNED_HEADERS := "x-amz-signedheaders"
  const EXPIRES := "x-amz-expires"
  const DATE := "x-amz-date"

  /** Fifteen minutes, in nanoseconds. */
  const LIFETIME: int := 900_000_000_000

  const WHITELIST: set<string> := {
    "action", "version", "x-amz-algorithm", "x-amz-credential", "x-amz-date", "x-amz-expires",
    "x-amz-security-token", "x-amz-signature", "x-amz-signedheaders"
  }

  /** base64 and URL decoding, and date parsing (to nanoseconds), are not modelled. */
  datatype Decoders = Decoders(url: string -> Option<Url>, date: string -> Option<int>)

  /** What STS answers: the caller's ARN, account and user ID. */
  datatype Caller = Caller(arn: string, account: string, userId: string)

  datatype Identity = Identity(arn: string, canonical: string, account: string, userId: string, session: string)

  datatype Endpoint = Endpoint(scheme: string, host: string)

  /* ---------- The query ---------- */

  /** Every parameter is on the list, up to case, and has one value. */
  ghost predicate Permitted(query: Query) {
    forall k :: k in query ==> Lower(k) in WHITELIST && |query[k]| == 1
  }

  /** `q` is the query with its keys in lower case; where two keys differ only in case it holds the
      value of one of them, whichever came last. */
  ghost predicate Lowered(query: Query, q: map<string, string>) {
    && (forall k :: k in query ==> Lower(k) in q)
    && (forall l :: l in q ==> FromKey(query, l, q[l]))
  }

  ghost predicate FromKey(query: Query, l: string, value: string) {
    exists k :: k in query && Lower(k) == l && |query[k]| == 1 && query[k][0] == value
  }

  /** The normalisation loop, over the map in whatever order it comes. */
  method LowerQuery(query: Query) returns (q: Option<map<string, string>>)
    ensures q.Some? <==> Permitted(query)
    ensures q.Some? ==> Lowered(query, q.value)
  {
    var out: map<string, string> := map[];
    var rest := query.Keys;
    while rest != {}
      invariant rest <= query.Keys
      invariant forall k :: k in query && k !in rest ==> Lower(k) in WHITELIST && |query[k]| == 1 && Lower(k) in out
      invariant forall l :: l in out ==> FromKey(query, l, out[l])
      decreases rest
    {
      var key :| key in rest;
      rest := rest - {key};
      var lower := Lower(key);
      if lower !in WHITELIST {
        return None;
      }
      if |query[key]| != 1 {
        return None;
      }
      out := out[lower := query[key][0]];
    }
    return Some(out);
  }

  ghost predicate NoCaseTwins(query: Query) {
    forall j, k :: j in query && k in query && Lower(j) == Lower(k) ==> query[j] == query[k]
  }

  /** The normalised query does not depend on the iteration order exactly when keys that differ only
      in case carry the same value. */
  lemma OrderIndependentIff(query: Query)
    requires Permitted(query)
    ensures NoCaseTwins(query) <==> forall q, r :: Lowered(query, q) && Lowered(query, r) ==> q == r
  {
    if NoCaseTwins(query) {
      forall q, r | Lowered(query, q) && Lowered(query, r) ensures q == r {
        SameLowered(query, q, r);
      }
    } else {
      var j, k :| j in query && k in query && Lower(j) == Lower(k) && query[j] != query[k];
      TwinsLowerTwice(query, j, k);
    }
  }

  lemma TwinsLowerTwice(query: Query, j: string, k: string)
    requires Permitted(query) && j in query && k in query && Lower(j) == Lower(k) && query[j] != query[k]
    ensures exists q, r :: Lowered(query, q) && Lowered(query, r) && q != r
  {
    assert query[j] == [query[j][0]] && query[k] == [query[k][0]];
    var base := SomeLowered(query);
    var q, r := base[Lower(j) := query[j][0]], base[Lower(j) := query[k][0]];
    assert FromKey(query, Lower(j), query[j][0]) && FromKey(query, Lower(j), query[k][0]);
    assert Lowered(query, q) && Lowered(query, r);
    assert q[Lower(j)] != r[Lower(j)];
  }

  lemma SameLowered(query: Query, q: map<string, string>, r: map<string, string>)
    requires NoCaseTwins(query) && Lowered(query, q) && Lowered(query, r)
    ensures q == r
  {
    forall l | l in q ensures l in r && r[l] == q[l] {
      assert FromKey(query, l, q[l]);
      assert FromKey(query, l, r[l]);
    }
    forall l | l in r ensures l in q {
      assert FromKey(query, l, r[l]);
    }
  }

  lemma SomeLowered(query: Query) returns (q: map<string, string>)
    requires Permitted(query)
    ensures Lowered(query, q)
    decreases query.Keys
  {
    if query.Keys == {} {
      q := map[];
    } else {
      var k :| k in query.Keys;
      var rest := query - {k};
      var p := SomeLowered(rest);
      q := p[Lower(k) := query[k][0]];
      assert FromKey(query, Lower(k), query[k][0]);
      forall l | l in p ensures FromKey(query, l, p[l]) {
        assert FromKey(rest, l, p[l]);
      }
    }
  }

  function Get(q: map<string, string>, name: string): string {
    if name in q then q[name] else ""
  }

  /* ---------- The checks on the normalised query ---------- */

  predicate IsSpace(c: char) {
    c == ' ' || 9 <= c as int <= 13
  }

  function TrimSpaceLeft(s: string): string {
    if s != "" && IsSpace(s[0]) then TrimSpaceLeft(s[1..]) else s
  }

  function TrimSpaceRight(s: string): string {
    if s != "" && IsSpace(Last(s)) then TrimSpaceRight(s[..|s| - 1]) else s
  }

  function TrimSpace(s: string): string {
    TrimSpaceRight(TrimSpaceLeft(s))
  }

  predicate IsBlank(c: char) {
    c in [' ', '\t', '\n', '\U{000b}', '\U{000c}', '\r']
  }

  ghost predicate Blank(s: string) {
    forall i :: 0 <= i < |s| ==> IsBlank(s[i])
  }

  ghost predicate BlankFreeEnds(s: string) {
    s != "" ==> !IsBlank(s[0]) && !IsBlank(Last(s))
  }

  lemma {:induction false} TrimsLeft(left: string, s: string)
    requires Blank(left) && (s != "" ==> !IsBlank(s[0]))
    ensures TrimSpaceLeft(left + s) == s
    decreases |left|
  {
    if left != "" {
      assert (left + s)[1..] == left[1..] + s;
      TrimsLeft(left[1..], s);
    } else {
      assert left + s == s;
    }
  }

  lemma {:induction false} TrimsRight(s: string, right: string)
    requires Blank(right) && (s != "" ==> !IsBlank(Last(s)))
    ensures TrimSpaceRight(s + right) == s
    decreases |right|
  {
    if right != "" {
      assert (s + right)[..|s + right| - 1] == s + right[..|right| - 1];
      TrimsRight(s, right[..|right| - 1]);
    } else {
      assert s + right == s;
    }
  }

  /** Trimming takes the blanks off both ends and nothing else. */
  lemma TrimSpaceTrims(left: string, s: string, right: string)
    requires Blank(left) && Blank(right) && BlankFreeEnds(s)
    ensures TrimSpace(left + s + right) == s
  {
    if s != "" {
      assert left + s + right == left + (s + right);
      TrimsLeft(left, s + right);
      TrimsRight(s, right);
    } else {
      var all := left + s + right;
      assert Blank(all) && all == all + "";
      TrimsLeft(all, "");
    }
  }

  ghost predicate SignsClusterHeader(signed: string) {
    exists h :: h in Split(signed, ';') && EqualFold(TrimSpace(h), CLUSTER_HEADER)
  }

  method HasSignedClusterIDHeader(q: map<string, string>) returns (yes: bool)
    ensures yes <==> SignsClusterHeader(Get(q, SIGNED_HEADERS))
  {
    var headers := Split(Get(q, SIGNED_HEADERS), ';');
    for i := 0 to |headers|
      invariant forall j :: 0 <= j < i ==> !EqualFold(TrimSpace(headers[j]), CLUSTER_HEADER)
    {
      if EqualFold(TrimSpace(headers[i]), CLUSTER_HEADER) {
        return true;
      }
    }
    return false;
  }

  predicate IsDigit(c: char) {
    '0' <= c <= '9'
  }

  function Digits(s: string): Option<int> {
    if s == "" || !IsDigit(Last(s)) then None
    else if |s| == 1 then Some(s[0] as int - '0' as int)
    else
      match Digits(s[..|s| - 1])
      case Some(n) => Some(10 * n + (Last(s) as int - '0' as int))
      case None => None
  }

  /** `strconv.Atoi`, up to overflow, which gives a value out of every range tested here. */
  function Atoi(s: string): Option<int> {
    if s != "" && s[0] == '-' then
      match Digits(s[1..])
      case Some(n) => Some(-n)
      case None => None
    else if s != "" && s[0] == '+' then Digits(s[1..])
    else Digits(s)
  }

  predicate ExpiresOk(expires: string) {
    var n := Atoi(expires);
    n.Some? && 0 <= n.value <= MAX_EXPIRES
  }

  /** A number as it is printed. */
  function Decimal(n: nat): (s: string)
    ensures s != ""
  {
    if n < 10 then ["0123456789"[n]] else Decimal(n / 10) + ["0123456789"[n % 10]]
  }

  lemma DigitRead(d: nat)
    requires d < 10
    ensures var c := "0123456789"[d]; IsDigit(c) && c as int - '0' as int == d && c != '-' && c != '+'
  {
  }

  lemma {:induction false} DigitsOfDecimal(n: nat)
    ensures Digits(Decimal(n)) == Some(n)
    ensures Decimal(n)[0] != '-' && Decimal(n)[0] != '+'
    decreases n
  {
    DigitRead(n % 10);
    if n >= 10 {
      DigitsOfDecimal(n / 10);
      var s := Decimal(n);
      assert s[..|s| - 1] == Decimal(n / 10) && s[0] == Decimal(n / 10)[0];
    }
  }

  /** The text of a number denotes it, with or without a plus sign, and with a minus its negative. */
  lemma AtoiReadsDecimal(n: nat)
    ensures Atoi(Decimal(n)) == Some(n) && Atoi("+" + Decimal(n)) == Some(n)
    ensures var m: int := n; Atoi("-" + Decimal(n)) == Some(-m)
  {
    DigitsOfDecimal(n);
    assert ("+" + Decimal(n))[1..] == Decimal(n) && ("-" + Decimal(n))[1..] == Decimal(n);
  }

  ghost predicate AllDigits(s: string) {
    s != "" && forall i :: 0 <= i < |s| ==> '0' <= s[i] <= '9'
  }

  lemma {:induction false} DigitsDefined(s: string)
    ensures Digits(s).Some? <==> AllDigits(s)
    ensures AllDigits(s) ==> Digits("0" + s) == Digits(s)
    decreases |s|
  {
    if |s| > 1 {
      var front := s[..|s| - 1];
      DigitsDefined(front);
      assert s == front + [Last(s)];
      assert ("0" + s)[..|s|] == "0" + front && Last("0" + s) == Last(s);
    }
  }

  /** Nothing else is a number: a text has a value exactly if digits, and only digits, follow its
      sign. Leading zeros do not matter. */
  lemma AtoiDefined(s: string)
    ensures Atoi(s).Some? <==> AllDigits(if s != "" && (s[0] == '-' || s[0] == '+') then s[1..] else s)
    ensures AllDigits(s) ==> Atoi("0" + s) == Atoi(s)
  {
    DigitsDefined(s);
    if s != "" {
      DigitsDefined(s[1..]);
    }
  }

  /** So the lifetimes accepted are 0 to 900, however they are written. */
  lemma ExpiresAccepted(n: nat)
    ensures ExpiresOk(Decimal(n)) <==> n <= 900
    ensures ExpiresOk("+" + Decimal(n)) <==> n <= 900
    ensures ExpiresOk("-" + Decimal(n)) <==> n == 0
    ensures !ExpiresOk("")
  {
    AtoiReadsDecimal(n);
  }

  /** Fifteen minutes from the signing date, and not from x-amz-expires. */
  predicate InTime(d: Decoders, date: string, now: int) {
    var signed := d.date(date);
    signed.Some? && now <= signed.value + LIFETIME
  }

  /** What is asked of the value of one parameter; the others are not looked at. */
  ghost predicate ValueOk(d: Decoders, name: string, value: string, now: int) {
    && (name == ACTION ==> value == "GetCallerIdentity")
    && (name == SIGNED_HEADERS ==> SignsClusterHeader(value))
    && (name == EXPIRES ==> ExpiresOk(value))
    && (name == DATE ==> InTime(d, value, now))
  }

  ghost predicate QueryOk(d: Decoders, q: map<string, string>, now: int) {
    && Get(q, ACTION) == "GetCallerIdentity"
    && SignsClusterHeader(Get(q, SIGNED_HEADERS))
    && ExpiresOk(Get(q, EXPIRES))
    && InTime(d, Get(q, DATE), now)
  }

  predicate UrlOk(e: Endpoint, u: Url) {
    EqualFold(u.host, e.host) && u.scheme == e.scheme && (u.path == "/" || u.path == "")
  }

  predicate TokenOk(token: string) {
    |token| <= MAX_TOKEN && HasPrefix(token, PREFIX)
  }

  /** The verdict on a token, given how its query was normalised. */
  ghost predicate Passes(d: Decoders, e: Endpoint, token: string, u: Url, q: map<string, string>, now: int) {
    && TokenOk(token) && d.url(token[|PREFIX|..]) == Some(u) && UrlOk(e, u)
    && Permitted(u.query) && Lowered(u.query, q) && QueryOk(d, q, now)
  }

  ghost predicate PassesSomehow(d: Decoders, e: Endpoint, token: string, now: int) {
    exists u, q :: Passes(d, e, token, u, q, now)
  }

  /** The identity is the caller that STS names, with the canonical form of its ARN; there is none if
      STS names nobody or its ARN has no canonical form. */
  ghost predicate Answers(caller: Option<Caller>, id: Option<Identity>) {
    && (id.Some? <==> caller.Some? && caller.value.arn != "" && Arn.Canonicalize(caller.value.arn).Ok?)
    && (id.Some? ==>
          && caller.value == Caller(id.value.arn, id.value.account, id.value.userId)
          && Arn.Canonicalize(id.value.arn) == Arn.Ok(id.value.canonical)
          && id.value.session == Arn.SessionName(id.value.arn))
  }

  /** The verifier. `calls` records the URLs that STS was asked for, each with the cluster ID header
      it was asked with; `sts` is what STS answers. */
  class Verifier {
    const clusterId: string
    const endpoint: Endpoint
    const decoders: Decoders
    const sts: (string, string) -> Option<Caller>
    var calls: seq<(string, string)>

    constructor (clusterId: string, endpoint: Endpoint, decoders: Decoders, sts: (string, string) -> Option<Caller>)
      ensures this.clusterId == clusterId && this.endpoint == endpoint && this.decoders == decoders && calls == []
    {
      this.clusterId, this.endpoint, this.decoders, this.sts, this.calls := clusterId, endpoint, decoders, sts, [];
    }

    /** The structural checks: the URL to ask STS for, if the token passes them all. */
    method Check(token: string, now: int) returns (url: Option<string>)
      ensures url.Some? ==> exists u, q :: Passes(decoders, endpoint, token, u, q, now) && url.value == u.text
      ensures url.None? ==> !CertainlyPasses(decoders, endpoint, token, now)
    {
      if |token| > MAX_TOKEN {
        return None;
      }
      if !HasPrefix(token, PREFIX) {
        return None;
      }
      var parsed := decoders.url(token[|PREFIX|..]);
      if parsed.None? {
        return None;
      }
      var u := parsed.value;
      if !EqualFold(u.host, endpoint.host) || u.scheme != endpoint.scheme {
        return None;
      }
      if u.path != "/" && u.path != "" {
        return None;
      }
      var lowered := LowerQuery(u.query);
      if lowered.None? {
        return None;
      }
      var q := lowered.value;
      if Get(q, ACTION) != "GetCallerIdentity" {
        return None;
      }
      var signed := HasSignedClusterIDHeader(q);
      if !signed {
        return None;
      }
      if !ExpiresOk(Get(q, EXPIRES)) {
        return None;
      }
      var date := decoders.date(Get(q, DATE));
      if date.None? || date.value + LIFETIME < now {
        return None;
      }
      assert Passes(decoders, endpoint, token, u, q, now);
      return Some(u.text);
    }

    /** STS is asked at most once, and only for a token that passed every structural check; the
        identity returned has the canonical form of the ARN that STS gave. */
    method Verify(token: string, now: int) returns (id: Option<Identity>)
      modifies this`calls
      ensures calls == old(calls) || exists u, q :: Passes(decoders, endpoint, token, u, q, now) && calls == old(calls) + [(u.text, clusterId)]
      ensures calls == old(calls) ==> id == None
      ensures calls != old(calls) ==> Answers(sts(calls[|calls| - 1].0, clusterId), id)
      ensures CertainlyPasses(decoders, endpoint, token, now) ==> calls != old(calls)
    {
      var url := Check(token, now);
      if url.None? {
        return None;
      }
      ghost var u, q :| Passes(decoders, endpoint, token, u, q, now) && url.value == u.text;
      calls := calls + [(url.value, clusterId)];
      assert calls[|calls| - 1] == (u.text, clusterId);
      var caller := sts(url.value, clusterId);
      if caller.None? || caller.value.arn == "" {
        return None;
      }
      var canonical := Arn.Canonicalize(caller.value.arn);
      if canonical.Err? {
        return None;
      }
      return Some(Identity(caller.value.arn, canonical.value, caller.value.account, caller.value.userId,
                           Arn.SessionName(caller.value.arn)));
    }
  }

  /** Every way of normalising the query passes. */
  ghost predicate CertainlyPasses(d: Decoders, e: Endpoint, token: string, now: int) {
    && TokenOk(token) && d.url(token[|PREFIX|..]).Some?
    && var u := d.url(token[|PREFIX|..]).value;
       && UrlOk(e, u) && Permitted(u.query)
       && forall q :: Lowered(u.query, q) ==> QueryOk(d, q, now)
  }

  /** For a token whose query has no two keys that differ only in case, the verdict is the same for
      every iteration order: what some order accepts, every order accepts. */
  lemma VerdictDetermined(d: Decoders, e: Endpoint, token: string, now: int)
    requires TokenOk(token) && d.url(token[|PREFIX|..]).Some? && NoCaseTwins(d.url(token[|PREFIX|..]).value.query)
    ensures PassesSomehow(d, e, token, now) <==> CertainlyPasses(d, e, token, now)
  {
    var u := d.url(token[|PREFIX|..]).value;
    if PassesSomehow(d, e, token, now) {
      var u', q :| Passes(d, e, token, u', q, now);
      forall r | Lowered(u.query, r) ensures QueryOk(d, r, now) {
        SameLowered(u.query, q, r);
      }
    }
    if CertainlyPasses(d, e, token, now) {
      var q := SomeLowered(u.query);
      assert Passes(d, e, token, u, q, now);
    }
  }

  lemma QueryOkMeans(d: Decoders, q: map<string, string>, now: int)
    ensures QueryOk(d, q, now) <==> forall name :: name in {ACTION, SIGNED_HEADERS, EXPIRES, DATE} ==> ValueOk(d, name, Get(q, name), now)
  {
    assert ACTION != SIGNED_HEADERS && |EXPIRES| != |DATE| && EXPIRES[0] != ACTION[0] && DATE[0] != ACTION[0];
    assert |SIGNED_HEADERS| != |EXPIRES| && |SIGNED_HEADERS| != |DATE|;
  }

  /** The exact condition: a token that some iteration order accepts is accepted by every order if
      and only if every spelling of a parameter in its query passes that parameter's check. */
  lemma VerdictDeterminedIff(d: Decoders, e: Endpoint, token: string, now: int)
    requires PassesSomehow(d, e, token, now)
    ensures CertainlyPasses(d, e, token, now) <==>
              var query := d.url(token[|PREFIX|..]).value.query;
              forall k :: k in query ==> ValueOk(d, Lower(k), query[k][0], now)
  {
    var u, q :| Passes(d, e, token, u, q, now);
    if CertainlyPasses(d, e, token, now) {
      forall k | k in u.query ensures ValueOk(d, Lower(k), u.query[k][0], now) {
        EachSpellingPasses(d, u.query, q, k, now);
      }
    }
    if forall k :: k in u.query ==> ValueOk(d, Lower(k), u.query[k][0], now) {
      forall r | Lowered(u.query, r) ensures QueryOk(d, r, now) {
        EverySpellingSuffices(d, u.query, q, r, now);
      }
    }
  }

  /** If every order passes, so does the one that meets the spelling `k` last. */
  lemma EachSpellingPasses(d: Decoders, query: Query, q: map<string, string>, k: string, now: int)
    requires Permitted(query) && Lowered(query, q) && k in query
    requires forall r :: Lowered(query, r) ==> QueryOk(d, r, now)
    ensures ValueOk(d, Lower(k), query[k][0], now)
  {
    var r := q[Lower(k) := query[k][0]];
    assert FromKey(query, Lower(k), query[k][0]);
    assert Lowered(query, r);
    assert Get(r, Lower(k)) == query[k][0];
    QueryOkMeans(d, r, now);
  }

  lemma EverySpellingSuffices(d: Decoders, query: Query, q: map<string, string>, r: map<string, string>, now: int)
    requires Permitted(query) && Lowered(query, q) && Lowered(query, r) && QueryOk(d, q, now)
    requires forall k :: k in query ==> ValueOk(d, Lower(k), query[k][0], now)
    ensures QueryOk(d, r, now)
  {
    QueryOkMeans(d, q, now);
    QueryOkMeans(d, r, now);
    forall name | name in {ACTION, SIGNED_HEADERS, EXPIRES, DATE} ensures ValueOk(d, name, Get(r, name), now) {
      if name in r {
        assert FromKey(query, name, r[name]);
      } else {
        assert name in q ==> FromKey(query, name, q[name]);
      }
    }
  }

  /** So an accepted token with a second spelling of one of the four parameters, which does not pass
      its check, is refused in another order. */
  lemma TwinsMakeItUncertain(d: Decoders, e: Endpoint, token: string, now: int, u: Url, q: map<string, string>, other: string)
    requires Passes(d, e, token, u, q, now)
    requires other in u.query && !ValueOk(d, Lower(other), u.query[other][0], now)
    ensures PassesSomehow(d, e, token, now) && !CertainlyPasses(d, e, token, now)
  {
    VerdictDeterminedIff(d, e, token, now);
  }

  /** The checks other than the one on x-amz-expires, with every constant written out. */
  ghost predicate PassesOtherwise(d: Decoders, e: Endpoint, token: string, u: Url, q: map<string, string>, now: int) {
    && |token| <= 4096 && "k8s-aws-v1." <= token && d.url(token[11..]) == Some(u)
    && Lower(u.host) == Lower(e.host) && u.scheme == e.scheme && (u.path == "/" || u.path == "")
    && (forall k :: k in u.query ==> IsParameter(Lower(k)) && |u.query[k]| == 1)
    && Lowered(u.query, q)
    && "action" in q && q["action"] == "GetCallerIdentity"
    && "x-amz-signedheaders" in q && (exists h :: h in Split(q["x-amz-signedheaders"], ';') && Lower(TrimSpace(h)) == "x-k8s-aws-id")
    && (exists signed :: d.date(Get(q, "x-amz-date")) == Some(signed) && now <= signed + 15 * 60 * 1_000_000_000)
  }

  ghost predicate IsParameter(name: string) {
    || name == "action" || name == "version" || name == "x-amz-algorithm" || name == "x-amz-credential" || name == "x-amz-date"
    || name == "x-amz-expires" || name == "x-amz-security-token" || name == "x-amz-signature" || name == "x-amz-signedheaders"
  }

  lemma PassesIs(d: Decoders, e: Endpoint, token: string, u: Url, q: map<string, string>, now: int)
    ensures Passes(d, e, token, u, q, now) <==>
              PassesOtherwise(d, e, token, u, q, now) && "x-amz-expires" in q && ExpiresOk(q["x-amz-expires"])
  {
  }

  /** A token that meets the other checks is accepted with a lifetime of 0 to 900 and no other. */
  lemma PassesByExpires(d: Decoders, e: Endpoint, token: string, u: Url, q: map<string, string>, now: int, n: nat)
    requires PassesOtherwise(d, e, token, u, q, now) && "x-amz-expires" in q && q["x-amz-expires"] == Decimal(n)
    ensures Passes(d, e, token, u, q, now) <==> n <= 900
    ensures NoCaseTwins(u.query) ==> (CertainlyPasses(d, e, token, now) <==> n <= 900)
  {
    PassesIs(d, e, token, u, q, now);
    ExpiresAccepted(n);
    if NoCaseTwins(u.query) {
      VerdictDetermined(d, e, token, now);
    }
  }

  /** A token that passes at one clock reading passes at every earlier one. */
  lemma PassesEarlier(d: Decoders, e: Endpoint, token: string, now: int, earlier: int)
    requires earlier <= now
    ensures PassesSomehow(d, e, token, now) ==> PassesSomehow(d, e, token, earlier)
    ensures CertainlyPasses(d, e, token, now) ==> CertainlyPasses(d, e, token, earlier)
  {
    if PassesSomehow(d, e, token, now) {
      var u, q :| Passes(d, e, token, u, q, now);
      assert Passes(d, e, token, u, q, earlier);
    }
    if CertainlyPasses(d, e, token, now) {
      var u := d.url(token[|PREFIX|..]).value;
      forall q | Lowered(u.query, q) ensures QueryOk(d, q, earlier) {
        assert QueryOk(d, q, now);
      }
    }
  }

  /** No token outlives its fifteen minutes, whatever its x-amz-expires says. */
  lemma ExpiresAfterFifteenMinutes(d: Decoders, e: Endpoint, token: string, u: Url, q: map<string, string>, now: int)
    requires Passes(d, e, token, u, q, now)
    ensures exists signed :: d.date(Get(q, DATE)) == Some(signed) && (forall later :: Passes(d, e, token, u, q, later) <==> later <= signed + LIFETIME)
  {
    var signed := d.date(Get(q, DATE)).value;
    forall later ensures Passes(d, e, token, u, q, later) <==> later <= signed + LIFETIME {
      assert QueryOk(d, q, later) <==> later <= signed + LIFETIME;
    }
  }
}
