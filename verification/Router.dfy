/** internal/api/router.go and the route table of internal/api/server.go. Paths are the escaped form
    of the request path; a captured segment is percent-decoded only after it has been split off. */
module Router {
  import opened Text

  /* ---------- Percent-encoding ---------- */

  function HexValue(c: char): Option<int> {
    if '0' <= c <= '9' then Some(c as int - '0' as int)
    else if 'a' <= c <= 'f' then Some(c as int - 'a' as int + 10)
    else if 'A' <= c <= 'F' then Some(c as int - 'A' as int + 10)
    else None
  }

  lemma HexRange(c: char)
    ensures HexValue(c).Some? ==> 0 <= HexValue(c).value < 16
  {
  }

  /** `c` is the digit of value `i`, in either case. */
  predicate IsDigitOf(c: char, i: nat)
    requires i < 16
  {
    c == "0123456789abcdef"[i] || c == "0123456789ABCDEF"[i]
  }

  lemma HexMeans(c: char)
    ensures HexValue(c).Some? <==> exists i: nat :: i < 16 && IsDigitOf(c, i)
    ensures forall i: nat :: i < 16 && IsDigitOf(c, i) ==> HexValue(c) == Some(i)
  {
    HexRange(c);
    if HexValue(c).Some? {
      assert IsDigitOf(c, HexValue(c).value);
    }
  }

  ghost predicate IsHex(c: char) {
    exists i: nat :: i < 16 && IsDigitOf(c, i)
  }

  /** What an escape made of two digits decodes to. */
  lemma EscapeMeans(s: string, i: nat, j: nat)
    requires |s| >= 3 && s[0] == '%' && i < 16 && j < 16 && IsDigitOf(s[1], i) && IsDigitOf(s[2], j)
    ensures Unescape(s) == Prepend((16 * i + j) as char, Unescape(s[3..]))
  {
    HexMeans(s[1]);
    HexMeans(s[2]);
  }

  /** A percent sign that two digits do not follow is malformed, and a segment with one is taken as it
      is; other characters stand for themselves. */
  lemma NoEscapeMeans(s: string)
    ensures Unescape("") == Some("")
    ensures s != "" && s[0] == '%' && !(|s| >= 3 && IsHex(s[1]) && IsHex(s[2])) ==> Unescape(s) == None
    ensures s != "" && s[0] != '%' ==> Unescape(s) == Prepend(s[0], Unescape(s[1..]))
    ensures Unescape(s) == None ==> Decode(s) == s
  {
    if |s| >= 3 {
      HexMeans(s[1]);
      HexMeans(s[2]);
    }
  }

  function Prepend(c: char, rest: Option<string>): Option<string> {
    if rest.Some? then Some([c] + rest.value) else None
  }

  /** The byte that "%ab" stands for. */
  function HexByte(a: char, b: char): char
    requires HexValue(a).Some? && HexValue(b).Some?
  {
    HexRange(a);
    HexRange(b);
    (16 * HexValue(a).value + HexValue(b).value) as char
  }

  predicate StartsEscape(s: string) {
    |s| >= 3 && HexValue(s[1]).Some? && HexValue(s[2]).Some?
  }

  /** `url.PathUnescape`: `None` for a malformed escape. */
  function Unescape(s: string): Option<string> {
    if s == "" then Some("")
    else if s[0] == '%' then
      if !StartsEscape(s) then None
      else
        match Unescape(s[3..])
        case Some(rest) => Some([HexByte(s[1], s[2])] + rest)
        case None => None
    else
      match Unescape(s[1..])
      case Some(rest) => Some([s[0]] + rest)
      case None => None
  }

  /** A malformed escape is taken literally. */
  function Decode(segment: string): string {
    var value := Unescape(segment);
    if value.Some? then value.value else segment
  }

  /** `text` is a percent-encoding of `value` as one path segment (section 2.1 of RFC 3986): each
      byte is written as itself, unless it is a percent sign or a slash, or as an escape. */
  ghost predicate Encodes(value: string, text: string)
    decreases |value|
  {
    if value == "" then text == ""
    else
      && text != ""
      && if text[0] == '%' then
           StartsEscape(text) && HexByte(text[1], text[2]) == value[0] && Encodes(value[1..], text[3..])
         else text[0] == value[0] && text[0] != '/' && Encodes(value[1..], text[1..])
  }

  lemma {:induction false} EncodedDecodes(value: string, text: string)
    requires Encodes(value, text)
    ensures Unescape(text) == Some(value) && '/' !in text && (text == "" <==> value == "")
    decreases |value|
  {
    if value != "" {
      if text[0] == '%' {
        EncodedDecodes(value[1..], text[3..]);
        assert text == [text[0], text[1], text[2]] + text[3..];
        assert value == [value[0]] + value[1..];
      } else {
        EncodedDecodes(value[1..], text[1..]);
        assert text == [text[0]] + text[1..];
        assert value == [value[0]] + value[1..];
      }
    }
  }

  function HexDigit(n: int): (c: char)
    requires 0 <= n < 16
    ensures HexValue(c) == Some(n)
  {
    if n < 10 then (n + '0' as int) as char else (n - 10 + 'A' as int) as char
  }

  /** The unreserved characters of section 2.3 of RFC 3986. */
  predicate Unreserved(c: char) {
    'a' <= c <= 'z' || 'A' <= c <= 'Z' || '0' <= c <= '9' || c == '-' || c == '.' || c == '_' || c == '~'
  }

  ghost predicate AllBytes(value: string) {
    forall i :: 0 <= i < |value| ==> value[i] as int < 256
  }

  /** The encoder that escapes everything but the unreserved characters. */
  function PercentEncode(value: string): string
    requires AllBytes(value)
  {
    if value == "" then ""
    else if Unreserved(value[0]) then [value[0]] + PercentEncode(value[1..])
    else ['%', HexDigit(value[0] as int / 16), HexDigit(value[0] as int % 16)] + PercentEncode(value[1..])
  }

  lemma {:induction false} PercentEncodeEncodes(value: string)
    requires AllBytes(value)
    ensures Encodes(value, PercentEncode(value))
    decreases |value|
  {
    if value != "" {
      PercentEncodeEncodes(value[1..]);
      var text := PercentEncode(value);
      if Unreserved(value[0]) {
        assert text[1..] == PercentEncode(value[1..]);
      } else {
        assert text[3..] == PercentEncode(value[1..]);
        assert value[0] as int == 16 * (value[0] as int / 16) + value[0] as int % 16;
      }
    }
  }

  /* ---------- Paths ---------- */

  function TrimLeft(p: string): string {
    if p != "" && p[0] == '/' then TrimLeft(p[1..]) else p
  }

  function TrimRight(p: string): string {
    if p != "" && Last(p) == '/' then TrimRight(p[..|p| - 1]) else p
  }

  function SplitPath(p: string): seq<string> {
    var t := TrimRight(TrimLeft(p));
    if t == "" then [] else Split(t, '/')
  }

  /** The path with these segments. */
  function PathOf(segments: seq<string>): string {
    "/" + Join(segments, '/')
  }

  lemma {:induction false} JoinEnds(parts: seq<string>)
    requires |parts| > 0 && parts[0] != "" && Last(parts) != ""
    ensures Join(parts, '/') != "" && Join(parts, '/')[0] == parts[0][0] && Last(Join(parts, '/')) == Last(Last(parts))
    decreases |parts|
  {
    if |parts| > 1 {
      var front := parts[..|parts| - 1];
      assert parts == front + [Last(parts)];
      JoinAppend(front, Last(parts), '/');
      JoinCons(parts[0], parts[1..], '/');
      assert parts == [parts[0]] + parts[1..];
    }
  }

  /** Clean, non-empty end segments survive the trip through a path. */
  lemma SplitPathOf(segments: seq<string>)
    requires |segments| > 0 && Clean(segments, '/') && segments[0] != "" && Last(segments) != ""
    ensures SplitPath(PathOf(segments)) == segments
  {
    var body := Join(segments, '/');
    JoinEnds(segments);
    assert segments[0][0] in segments[0] && Last(Last(segments)) in Last(segments);
    assert PathOf(segments)[1..] == body;
    assert TrimLeft(PathOf(segments)) == TrimLeft(body) == body;
    assert TrimRight(body) == body;
    SplitJoin(segments, '/');
  }

  lemma SplitDropsSlash(p: string)
    requires p != "" && Last(p) == '/'
    ensures |Split(p[..|p| - 1], '/')| == |Split(p, '/')| - 1
  {
    var q := p[..|p| - 1];
    JoinSplit(q, '/');
    JoinAppend(Split(q, '/'), "", '/');
    assert p == q + ['/'] + "";
    SplitJoin(Split(q, '/') + [""], '/');
  }

  lemma {:induction false} TrimRightSplits(p: string)
    ensures |Split(TrimRight(p), '/')| <= |Split(p, '/')|
    decreases |p|
  {
    if p != "" && Last(p) == '/' {
      SplitDropsSlash(p);
      TrimRightSplits(p[..|p| - 1]);
    }
  }

  /** An empty last segment is lost: the path has fewer segments than were put in. */
  lemma EmptyLastSegmentLost(segments: seq<string>)
    requires |segments| > 1 && Clean(segments, '/') && segments[0] != "" && Last(segments) == ""
    ensures |SplitPath(PathOf(segments))| < |segments|
  {
    var front := segments[..|segments| - 1];
    assert segments == front + [""];
    JoinAppend(front, "", '/');
    var body := Join(segments, '/');
    assert segments == [segments[0]] + segments[1..];
    JoinCons(segments[0], segments[1..], '/');
    assert segments[0][0] in segments[0];
    assert PathOf(segments)[1..] == body && body[0] == segments[0][0];
    assert TrimLeft(PathOf(segments)) == TrimLeft(body) == body;
    assert body == Join(front, '/') + ['/'];
    assert body[..|body| - 1] == Join(front, '/');
    SplitJoin(front, '/');
    TrimRightSplits(Join(front, '/'));
  }

  /* ---------- Matching ---------- */

  predicate IsParam(segment: string) {
    HasPrefix(segment, ":")
  }

  type Params = map<string, string>

  ghost predicate Matches(pattern: seq<string>, segments: seq<string>) {
    && |segments| == |pattern|
    && forall i :: 0 <= i < |pattern| && !IsParam(pattern[i]) ==> segments[i] == pattern[i]
  }

  /** What the parameters are bound to; a repeated name takes its last value. */
  ghost function Bindings(pattern: seq<string>, segments: seq<string>): Params
    requires |segments| == |pattern|
  {
    if |pattern| == 0 then map[]
    else
      var n := |pattern| - 1;
      var front := Bindings(pattern[..n], segments[..n]);
      if IsParam(pattern[n]) then front[pattern[n][1..] := Decode(segments[n])] else front
  }

  method Match(pattern: seq<string>, segments: seq<string>) returns (params: Option<Params>)
    ensures params.Some? <==> Matches(pattern, segments)
    ensures params.Some? ==> params.value == Bindings(pattern, segments)
  {
    if |segments| != |pattern| {
      return None;
    }
    var bound: Params := map[];
    for i := 0 to |pattern|
      invariant forall j :: 0 <= j < i && !IsParam(pattern[j]) ==> segments[j] == pattern[j]
      invariant bound == Bindings(pattern[..i], segments[..i])
    {
      var want := pattern[i];
      assert pattern[..i + 1][..i] == pattern[..i] && segments[..i + 1][..i] == segments[..i];
      if IsParam(want) {
        bound := bound[want[1..] := Decode(segments[i])];
        continue;
      }
      if segments[i] != want {
        return None;
      }
    }
    assert pattern[..|pattern|] == pattern && segments[..|segments|] == segments;
    return Some(bound);
  }

  ghost predicate DistinctParams(pattern: seq<string>) {
    forall i, j :: 0 <= i < j < |pattern| && IsParam(pattern[i]) && IsParam(pattern[j]) ==> pattern[i] != pattern[j]
  }

  ghost function ParamNames(pattern: seq<string>): set<string> {
    set i | 0 <= i < |pattern| && IsParam(pattern[i]) :: pattern[i][1..]
  }

  lemma ParamNamesAppend(pattern: seq<string>, last: string)
    ensures ParamNames(pattern + [last]) == ParamNames(pattern) + if IsParam(last) then {last[1..]} else {}
  {
    var all := pattern + [last];
    assert forall i :: 0 <= i < |pattern| ==> all[i] == pattern[i];
    assert all[|pattern|] == last;
  }

  lemma ParamNameInjective(p: string, q: string)
    requires IsParam(p) && IsParam(q) && p[1..] == q[1..]
    ensures p == q
  {
    assert p == ":" + p[1..] && q == ":" + q[1..];
  }

  /** With distinct names, each parameter is bound to its own segment. */
  lemma {:induction false} BindingsAt(pattern: seq<string>, segments: seq<string>, i: nat)
    requires |segments| == |pattern| && DistinctParams(pattern) && i < |pattern| && IsParam(pattern[i])
    ensures pattern[i][1..] in Bindings(pattern, segments) && Bindings(pattern, segments)[pattern[i][1..]] == Decode(segments[i])
    decreases |pattern|
  {
    var n := |pattern| - 1;
    if i < n {
      BindingsAt(pattern[..n], segments[..n], i);
      if IsParam(pattern[n]) && pattern[n][1..] == pattern[i][1..] {
        ParamNameInjective(pattern[i], pattern[n]);
      }
    }
  }

  lemma {:induction false} BindingsKeys(pattern: seq<string>, segments: seq<string>)
    requires |segments| == |pattern|
    ensures Bindings(pattern, segments).Keys == ParamNames(pattern)
    decreases |pattern|
  {
    if |pattern| > 0 {
      var n := |pattern| - 1;
      BindingsKeys(pattern[..n], segments[..n]);
      assert pattern == pattern[..n] + [pattern[n]];
      ParamNamesAppend(pattern[..n], pattern[n]);
    }
  }

  /** A request path for a pattern: literal segments as they are, parameters percent-encoded. */
  ghost predicate Fills(pattern: seq<string>, values: Params, texts: seq<string>) {
    && |texts| == |pattern|
    && forall i :: 0 <= i < |pattern| ==>
         if IsParam(pattern[i]) then pattern[i][1..] in values && Encodes(values[pattern[i][1..]], texts[i])
         else texts[i] == pattern[i]
  }

  ghost predicate GoodPattern(pattern: seq<string>) {
    && |pattern| > 0 && !IsParam(pattern[0]) && DistinctParams(pattern)
    && forall i :: 0 <= i < |pattern| && !IsParam(pattern[i]) ==> pattern[i] != "" && '/' !in pattern[i]
  }

  /** Encoding values into a path and routing it recovers exactly those values, whatever slashes,
      colons or percent signs they contain, if and only if the last segment is not empty. */
  lemma RouteRoundTrip(pattern: seq<string>, values: Params, texts: seq<string>)
    requires GoodPattern(pattern) && Fills(pattern, values, texts)
    ensures var segments := SplitPath(PathOf(texts));
            (&& Matches(pattern, segments)
             && Bindings(pattern, segments).Keys == ParamNames(pattern)
             && (forall name :: name in ParamNames(pattern) ==>
                   name in values && Bindings(pattern, segments)[name] == values[name]))
            <==> Last(texts) != ""
  {
    forall i | 0 <= i < |texts|
      ensures '/' !in texts[i] && (IsParam(pattern[i]) ==> Decode(texts[i]) == values[pattern[i][1..]])
    {
      if IsParam(pattern[i]) {
        EncodedDecodes(values[pattern[i][1..]], texts[i]);
      }
    }
    assert Clean(texts, '/');
    if Last(texts) != "" {
      SplitPathOf(texts);
      BindingsKeys(pattern, texts);
      forall name | name in ParamNames(pattern) ensures name in values && Bindings(pattern, texts)[name] == values[name] {
        var i :| 0 <= i < |pattern| && IsParam(pattern[i]) && pattern[i][1..] == name;
        BindingsAt(pattern, texts, i);
      }
    } else {
      EmptyLastSegmentLost(texts);
    }
  }

  /* ---------- Dispatch ---------- */

  datatype Handler =
    | CreateCluster | ListClusters | DescribeCluster | DeleteCluster | CreateNodegroup
    | ListNodegroups | DescribeNodegroup | DeleteNodegroup | CreateAddon | ListAddons
    | DescribeAddon | DeleteAddon | DescribeAddonVersions | CreateAccessEntry | ListAccessEntries
    | DescribeAccessEntry | DeleteAccessEntry | AssociateAccessPolicy | ListAssociatedAccessPolicies
    | DisassociateAccessPolicy | ListAccessPolicies | TokenReview | OIDCDiscovery | OIDCKeys
    | Health | MintIRSAToken

  datatype Route = Route(verb: string, segments: seq<string>, handler: Handler)

  datatype Outcome = Handled(handler: Handler, params: Params) | MethodNotAllowed | Fallback | NotFound

  /** The first route for the path and method; otherwise 405 if the path is known under another
      method; otherwise the fallback, or 404 without one. */
  ghost predicate Dispatches(routes: seq<Route>, fallback: bool, verb: string, segments: seq<string>, out: Outcome) {
    match out
    case Handled(handler, params) =>
      exists i :: 0 <= i < |routes| && Matches(routes[i].segments, segments) && routes[i].verb == verb
        && handler == routes[i].handler && params == Bindings(routes[i].segments, segments)
        && forall j :: 0 <= j < i ==> !(Matches(routes[j].segments, segments) && routes[j].verb == verb)
    case MethodNotAllowed =>
      && (forall j :: 0 <= j < |routes| ==> !(Matches(routes[j].segments, segments) && routes[j].verb == verb))
      && (exists j :: 0 <= j < |routes| && Matches(routes[j].segments, segments))
    case _ =>
      && (forall j :: 0 <= j < |routes| ==> !Matches(routes[j].segments, segments))
      && out == (if fallback then Fallback else NotFound)
  }

  class Router {
    var routes: seq<Route>
    var fallback: bool

    constructor ()
      ensures routes == [] && !fallback
    {
      routes := [];
      fallback := false;
    }

    method Handle(verb: string, pattern: string, handler: Handler)
      modifies this`routes
      ensures routes == old(routes) + [Route(verb, SplitPath(pattern), handler)]
    {
      routes := routes + [Route(verb, SplitPath(pattern), handler)];
    }

    method SetFallback()
      modifies this`fallback
      ensures fallback
    {
      fallback := true;
    }

    method Serve(verb: string, path: string) returns (out: Outcome)
      ensures Dispatches(routes, fallback, verb, SplitPath(path), out)
    {
      var segments := SplitPath(path);
      var pathMatched := false;
      for i := 0 to |routes|
        invariant forall j :: 0 <= j < i ==> !(Matches(routes[j].segments, segments) && routes[j].verb == verb)
        invariant pathMatched <==> exists j :: 0 <= j < i && Matches(routes[j].segments, segments)
      {
        var params := Match(routes[i].segments, segments);
        if params.None? {
          continue;
        }
        if routes[i].verb != verb {
          pathMatched := true;
          continue;
        }
        return Handled(routes[i].handler, params.value);
      }
      if pathMatched {
        return MethodNotAllowed;
      }
      if fallback {
        return Fallback;
      }
      return NotFound;
    }

    /** Registering the table, each pattern as text. */
    method RegisterRoutes()
      requires routes == []
      modifies this
      ensures routes == Spelled(TABLE) && fallback
    {
      SetFallback();
      for i := 0 to |TABLE|
        invariant routes == Spelled(TABLE[..i]) && fallback
      {
        var h := TABLE[i];
        TableIsGood(h);
        SpelledPattern(Registration(h).pieces);
        assert TABLE[..i + 1] == TABLE[..i] + [h];
        SpelledAppend(TABLE[..i], h);
        Handle(Registration(h).verb.Spell(), PathOf(SpellAll(Registration(h).pieces)), h);
      }
      assert TABLE[..|TABLE|] == TABLE;
    }
  }

  /** Two patterns that some path could match. */
  predicate Overlap(p: seq<string>, q: seq<string>) {
    && |p| == |q|
    && forall i :: 0 <= i < |p| && !IsParam(p[i]) && !IsParam(q[i]) ==> p[i] == q[i]
  }

  ghost predicate Unambiguous(routes: seq<Route>) {
    forall x, y :: x in routes && y in routes && x != y && x.verb == y.verb ==> !Overlap(x.segments, y.segments)
  }

  ghost predicate OneMatch(routes: seq<Route>, verb: string, segments: seq<string>) {
    forall x, y ::
      x in routes && y in routes && x.verb == verb && y.verb == verb && Matches(x.segments, segments) && Matches(y.segments, segments)
      ==> x == y
  }

  lemma UnambiguousOneMatch(routes: seq<Route>, verb: string, segments: seq<string>)
    requires Unambiguous(routes)
    ensures OneMatch(routes, verb, segments)
  {
    forall x, y | x in routes && y in routes && x.verb == verb && y.verb == verb && Matches(x.segments, segments) && Matches(y.segments, segments)
      ensures x == y
    {
      assert Overlap(x.segments, y.segments);
    }
  }

  /** The outcome without reference to the order of routes. */
  ghost predicate OutcomeOf(routes: seq<Route>, fallback: bool, verb: string, segments: seq<string>, out: Outcome) {
    match out
    case Handled(handler, params) =>
      exists r :: r in routes && r.verb == verb && Matches(r.segments, segments)
        && handler == r.handler && params == Bindings(r.segments, segments)
    case MethodNotAllowed =>
      && (forall r :: r in routes && Matches(r.segments, segments) ==> r.verb != verb)
      && (exists r :: r in routes && Matches(r.segments, segments))
    case _ =>
      (forall r :: r in routes ==> !Matches(r.segments, segments)) && out == (if fallback then Fallback else NotFound)
  }

  lemma DispatchOutcome(routes: seq<Route>, fallback: bool, verb: string, segments: seq<string>, out: Outcome)
    requires Dispatches(routes, fallback, verb, segments, out)
    ensures OutcomeOf(routes, fallback, verb, segments, out)
  {
  }

  /** With unambiguous routes a request matches at most one, so its outcome depends only on which
      routes there are, not on the order of registration. */
  lemma DispatchOrderIndependent(xs: seq<Route>, ys: seq<Route>, fallback: bool, verb: string, segments: seq<string>, a: Outcome, b: Outcome)
    requires Unambiguous(xs) && forall r :: r in xs <==> r in ys
    requires Dispatches(xs, fallback, verb, segments, a) && Dispatches(ys, fallback, verb, segments, b)
    ensures a == b
  {
    DispatchOutcome(xs, fallback, verb, segments, a);
    DispatchOutcome(ys, fallback, verb, segments, b);
    UnambiguousOneMatch(xs, verb, segments);
  }

  /* ---------- The route table ---------- */

  datatype Verb = Get | Post | Delete {
    function Spell(): string {
      match this
      case Get => "GET"
      case Post => "POST"
      case Delete => "DELETE"
    }
  }

  datatype Word =
    | Clusters | NodeGroups | Addons | AccessEntries | AccessPolicies | Eksuvia | Id | SupportedVersions
    | Webhook | WellKnown | OpenidConfiguration | Keys | Health | IrsaToken
  {
    function Spell(): string {
      match this
      case Clusters => "clusters"
      case NodeGroups => "node-groups"
      case Addons => "addons"
      case AccessEntries => "access-entries"
      case AccessPolicies => "access-policies"
      case Eksuvia => "_eksuvia"
      case Id => "id"
      case SupportedVersions => "supported-versions"
      case Webhook => "webhook"
      case WellKnown => ".well-known"
      case OpenidConfiguration => "openid-configuration"
      case Keys => "keys"
      case Health => "health"
      case IrsaToken => "irsa-token"
    }

    /** The length and first letter of the spelling, which no two words share. */
    ghost function Shape(): (int, char) {
      match this
      case Clusters => (8, 'c')
      case NodeGroups => (11, 'n')
      case Addons => (6, 'a')
      case AccessEntries => (14, 'a')
      case AccessPolicies => (15, 'a')
      case Eksuvia => (8, '_')
      case Id => (2, 'i')
      case SupportedVersions => (18, 's')
      case Webhook => (7, 'w')
      case WellKnown => (11, '.')
      case OpenidConfiguration => (20, 'o')
      case Keys => (4, 'k')
      case Health => (6, 'h')
      case IrsaToken => (10, 'i')
    }
  }

  datatype Param = ClusterName | NodegroupName | AddonName | Principal | Policy | ReviewedCluster | Issuer {
    function Spell(): string {
      match this
      case ClusterName => "name"
      case NodegroupName => "nodegroup"
      case AddonName => "addon"
      case Principal => "principal"
      case Policy => "policy"
      case ReviewedCluster => "cluster"
      case Issuer => "issuer"
    }
  }

  datatype Piece = Lit(word: Word) | Par(param: Param) {
    function Spell(): string {
      match this
      case Lit(w) => w.Spell()
      case Par(p) => ":" + p.Spell()
    }
  }

  /** What a handler is registered under. */
  datatype Pattern = Pattern(verb: Verb, pieces: seq<Piece>)

  function SpellAll(pieces: seq<Piece>): (r: seq<string>)
    ensures |r| == |pieces|
  {
    seq(|pieces|, i requires 0 <= i < |pieces| => pieces[i].Spell())
  }

  /** registerRoutes. */
  function Registration(h: Handler): Pattern {
    match h
    case CreateCluster => Pattern(Post, [Lit(Clusters)])
    case ListClusters => Pattern(Get, [Lit(Clusters)])
    case DescribeCluster => Pattern(Get, [Lit(Clusters), Par(ClusterName)])
    case DeleteCluster => Pattern(Delete, [Lit(Clusters), Par(ClusterName)])
    case CreateNodegroup => Pattern(Post, [Lit(Clusters), Par(ClusterName), Lit(NodeGroups)])
    case ListNodegroups => Pattern(Get, [Lit(Clusters), Par(ClusterName), Lit(NodeGroups)])
    case DescribeNodegroup => Pattern(Get, [Lit(Clusters), Par(ClusterName), Lit(NodeGroups), Par(NodegroupName)])
    case DeleteNodegroup => Pattern(Delete, [Lit(Clusters), Par(ClusterName), Lit(NodeGroups), Par(NodegroupName)])
    case CreateAddon => Pattern(Post, [Lit(Clusters), Par(ClusterName), Lit(Addons)])
    case ListAddons => Pattern(Get, [Lit(Clusters), Par(ClusterName), Lit(Addons)])
    case DescribeAddon => Pattern(Get, [Lit(Clusters), Par(ClusterName), Lit(Addons), Par(AddonName)])
    case DeleteAddon => Pattern(Delete, [Lit(Clusters), Par(ClusterName), Lit(Addons), Par(AddonName)])
    case DescribeAddonVersions => Pattern(Get, [Lit(Addons), Lit(SupportedVersions)])
    case CreateAccessEntry => Pattern(Post, [Lit(Clusters), Par(ClusterName), Lit(AccessEntries)])
    case ListAccessEntries => Pattern(Get, [Lit(Clusters), Par(ClusterName), Lit(AccessEntries)])
    case DescribeAccessEntry => Pattern(Get, [Lit(Clusters), Par(ClusterName), Lit(AccessEntries), Par(Principal)])
    case DeleteAccessEntry => Pattern(Delete, [Lit(Clusters), Par(ClusterName), Lit(AccessEntries), Par(Principal)])
    case AssociateAccessPolicy => Pattern(Post, [Lit(Clusters), Par(ClusterName), Lit(AccessEntries), Par(Principal), Lit(AccessPolicies)])
    case ListAssociatedAccessPolicies => Pattern(Get, [Lit(Clusters), Par(ClusterName), Lit(AccessEntries), Par(Principal), Lit(AccessPolicies)])
    case DisassociateAccessPolicy => Pattern(Delete, [Lit(Clusters), Par(ClusterName), Lit(AccessEntries), Par(Principal), Lit(AccessPolicies), Par(Policy)])
    case ListAccessPolicies => Pattern(Get, [Lit(AccessPolicies)])
    case TokenReview => Pattern(Post, [Lit(Eksuvia), Lit(Webhook), Par(ReviewedCluster)])
    case OIDCDiscovery => Pattern(Get, [Lit(Id), Par(Issuer), Lit(WellKnown), Lit(OpenidConfiguration)])
    case OIDCKeys => Pattern(Get, [Lit(Id), Par(Issuer), Lit(Keys)])
    case Health => Pattern(Get, [Lit(Eksuvia), Lit(Word.Health)])
    case MintIRSAToken => Pattern(Post, [Lit(Eksuvia), Lit(Clusters), Par(ClusterName), Lit(IrsaToken)])
  }

  /** The order of registration. */
  const TABLE: seq<Handler> := [
    CreateCluster, ListClusters, DescribeCluster, DeleteCluster, CreateNodegroup, ListNodegroups,
    DescribeNodegroup, DeleteNodegroup, CreateAddon, ListAddons, DescribeAddon, DeleteAddon,
    DescribeAddonVersions, CreateAccessEntry, ListAccessEntries, DescribeAccessEntry, DeleteAccessEntry,
    AssociateAccessPolicy, ListAssociatedAccessPolicies, DisassociateAccessPolicy, ListAccessPolicies,
    TokenReview, OIDCDiscovery, OIDCKeys, Handler.Health, MintIRSAToken
  ]

  function Register(h: Handler): Route {
    Route(Registration(h).verb.Spell(), SpellAll(Registration(h).pieces), h)
  }

  function Spelled(handlers: seq<Handler>): (r: seq<Route>)
    ensures |r| == |handlers|
  {
    seq(|handlers|, i requires 0 <= i < |handlers| => Register(handlers[i]))
  }

  /** registerRoutes as it is written: method and path. */
  ghost predicate Documented(h: Handler, verb: string, path: seq<string>) {
    match h
    case CreateCluster => verb == "POST" && path == ["clusters"]
    case ListClusters => verb == "GET" && path == ["clusters"]
    case DescribeCluster => verb == "GET" && path == ["clusters", ":name"]
    case DeleteCluster => verb == "DELETE" && path == ["clusters", ":name"]
    case CreateNodegroup => verb == "POST" && path == ["clusters", ":name", "node-groups"]
    case ListNodegroups => verb == "GET" && path == ["clusters", ":name", "node-groups"]
    case DescribeNodegroup => verb == "GET" && path == ["clusters", ":name", "node-groups", ":nodegroup"]
    case DeleteNodegroup => verb == "DELETE" && path == ["clusters", ":name", "node-groups", ":nodegroup"]
    case CreateAddon => verb == "POST" && path == ["clusters", ":name", "addons"]
    case ListAddons => verb == "GET" && path == ["clusters", ":name", "addons"]
    case DescribeAddon => verb == "GET" && path == ["clusters", ":name", "addons", ":addon"]
    case DeleteAddon => verb == "DELETE" && path == ["clusters", ":name", "addons", ":addon"]
    case DescribeAddonVersions => verb == "GET" && path == ["addons", "supported-versions"]
    case CreateAccessEntry => verb == "POST" && path == ["clusters", ":name", "access-entries"]
    case ListAccessEntries => verb == "GET" && path == ["clusters", ":name", "access-entries"]
    case DescribeAccessEntry => verb == "GET" && path == ["clusters", ":name", "access-entries", ":principal"]
    case DeleteAccessEntry => verb == "DELETE" && path == ["clusters", ":name", "access-entries", ":principal"]
    case AssociateAccessPolicy => verb == "POST" && path == ["clusters", ":name", "access-entries", ":principal", "access-policies"]
    case ListAssociatedAccessPolicies => verb == "GET" && path == ["clusters", ":name", "access-entries", ":principal", "access-policies"]
    case DisassociateAccessPolicy => verb == "DELETE" && path == ["clusters", ":name", "access-entries", ":principal", "access-policies", ":policy"]
    case ListAccessPolicies => verb == "GET" && path == ["access-policies"]
    case TokenReview => verb == "POST" && path == ["_eksuvia", "webhook", ":cluster"]
    case OIDCDiscovery => verb == "GET" && path == ["id", ":issuer", ".well-known", "openid-configuration"]
    case OIDCKeys => verb == "GET" && path == ["id", ":issuer", "keys"]
    case Health => verb == "GET" && path == ["_eksuvia", "health"]
    case MintIRSAToken => verb == "POST" && path == ["_eksuvia", "clusters", ":name", "irsa-token"]
  }

  ghost function ParamText(p: Param): string {
    match p
    case ClusterName => ":name"
    case NodegroupName => ":nodegroup"
    case AddonName => ":addon"
    case Principal => ":principal"
    case Policy => ":policy"
    case ReviewedCluster => ":cluster"
    case Issuer => ":issuer"
  }

  lemma ParamTextIs(p: Param)
    ensures Par(p).Spell() == ParamText(p)
  {
    match p
    case ClusterName => assert ":" + "name" == ":name";
    case NodegroupName => assert ":" + "nodegroup" == ":nodegroup";
    case AddonName => assert ":" + "addon" == ":addon";
    case Principal => assert ":" + "principal" == ":principal";
    case Policy => assert ":" + "policy" == ":policy";
    case ReviewedCluster => assert ":" + "cluster" == ":cluster";
    case Issuer => assert ":" + "issuer" == ":issuer";
  }

  lemma ClusterRoutesDocumented(h: Handler)
    requires h in {CreateCluster, ListClusters, DescribeCluster, DeleteCluster, Handler.Health, TokenReview}
    ensures Documented(h, Register(h).verb, Register(h).segments)
  {
    forall p: Param ensures Par(p).Spell() == ParamText(p) {
      ParamTextIs(p);
    }
  }

  lemma NodegroupRoutesDocumented(h: Handler)
    requires h in {CreateNodegroup, ListNodegroups, DescribeNodegroup, DeleteNodegroup, MintIRSAToken}
    ensures Documented(h, Register(h).verb, Register(h).segments)
  {
    forall p: Param ensures Par(p).Spell() == ParamText(p) {
      ParamTextIs(p);
    }
  }

  lemma AddonRoutesDocumented(h: Handler)
    requires h in {CreateAddon, ListAddons, DescribeAddon, DeleteAddon, DescribeAddonVersions}
    ensures Documented(h, Register(h).verb, Register(h).segments)
  {
    forall p: Param ensures Par(p).Spell() == ParamText(p) {
      ParamTextIs(p);
    }
  }

  lemma EntryRoutesDocumented(h: Handler)
    requires h in {CreateAccessEntry, ListAccessEntries, DescribeAccessEntry, DeleteAccessEntry, ListAccessPolicies}
    ensures Documented(h, Register(h).verb, Register(h).segments)
  {
    forall p: Param ensures Par(p).Spell() == ParamText(p) {
      ParamTextIs(p);
    }
  }

  lemma PolicyRoutesDocumented(h: Handler)
    requires h in {AssociateAccessPolicy, ListAssociatedAccessPolicies, DisassociateAccessPolicy}
    ensures Documented(h, Register(h).verb, Register(h).segments)
  {
    forall p: Param ensures Par(p).Spell() == ParamText(p) {
      ParamTextIs(p);
    }
  }

  lemma IssuerRoutesDocumented(h: Handler)
    requires h in {OIDCDiscovery, OIDCKeys}
    ensures Documented(h, Register(h).verb, Register(h).segments)
  {
    forall p: Param ensures Par(p).Spell() == ParamText(p) {
      ParamTextIs(p);
    }
  }

  lemma RegisterIsDocumented(h: Handler)
    ensures Register(h).handler == h && Documented(h, Register(h).verb, Register(h).segments)
  {
    match h
    case CreateCluster | ListClusters | DescribeCluster | DeleteCluster | Health | TokenReview => ClusterRoutesDocumented(h);
    case CreateNodegroup | ListNodegroups | DescribeNodegroup | DeleteNodegroup | MintIRSAToken => NodegroupRoutesDocumented(h);
    case CreateAddon | ListAddons | DescribeAddon | DeleteAddon | DescribeAddonVersions => AddonRoutesDocumented(h);
    case CreateAccessEntry | ListAccessEntries | DescribeAccessEntry | DeleteAccessEntry | ListAccessPolicies => EntryRoutesDocumented(h);
    case AssociateAccessPolicy | ListAssociatedAccessPolicies | DisassociateAccessPolicy => PolicyRoutesDocumented(h);
    case OIDCDiscovery | OIDCKeys => IssuerRoutesDocumented(h);
  }

  /** Every handler is registered, and once. */
  lemma TableIsComplete(h: Handler)
    ensures h in TABLE && |TABLE| == 26
  {
    match h
    case CreateCluster => assert TABLE[0] == h;
    case ListClusters => assert TABLE[1] == h;
    case DescribeCluster => assert TABLE[2] == h;
    case DeleteCluster => assert TABLE[3] == h;
    case CreateNodegroup => assert TABLE[4] == h;
    case ListNodegroups => assert TABLE[5] == h;
    case DescribeNodegroup => assert TABLE[6] == h;
    case DeleteNodegroup => assert TABLE[7] == h;
    case CreateAddon => assert TABLE[8] == h;
    case ListAddons => assert TABLE[9] == h;
    case DescribeAddon => assert TABLE[10] == h;
    case DeleteAddon => assert TABLE[11] == h;
    case DescribeAddonVersions => assert TABLE[12] == h;
    case CreateAccessEntry => assert TABLE[13] == h;
    case ListAccessEntries => assert TABLE[14] == h;
    case DescribeAccessEntry => assert TABLE[15] == h;
    case DeleteAccessEntry => assert TABLE[16] == h;
    case AssociateAccessPolicy => assert TABLE[17] == h;
    case ListAssociatedAccessPolicies => assert TABLE[18] == h;
    case DisassociateAccessPolicy => assert TABLE[19] == h;
    case ListAccessPolicies => assert TABLE[20] == h;
    case TokenReview => assert TABLE[21] == h;
    case OIDCDiscovery => assert TABLE[22] == h;
    case OIDCKeys => assert TABLE[23] == h;
    case Health => assert TABLE[24] == h;
    case MintIRSAToken => assert TABLE[25] == h;
  }

  lemma SpellingHasShape(w: Word)
    ensures |w.Spell()| == w.Shape().0 && w.Spell() != "" && w.Spell()[0] == w.Shape().1
  {
  }

  lemma SpellingIsPlain(w: Word)
    ensures w.Spell() != "" && '/' !in w.Spell() && !IsParam(w.Spell())
  {
    SpellingHasShape(w);
    assert w.Shape().1 != ':';
  }

  lemma SpellingInjective(v: Word, w: Word)
    requires v.Spell() == w.Spell()
    ensures v == w
  {
    SpellingHasShape(v);
    SpellingHasShape(w);
  }

  lemma VerbInjective(v: Verb, w: Verb)
    requires v.Spell() == w.Spell()
    ensures v == w
  {
    assert |"GET"| == 3 && |"POST"| == 4 && |"DELETE"| == 6;
  }

  lemma ParamSpellings(p: Param)
    ensures p.Spell() != "" && '/' !in p.Spell()
  {
  }

  lemma ParamSpellingInjective(p: Param, q: Param)
    requires p.Spell() == q.Spell()
    ensures p == q
  {
    assert |"name"| == 4 && |"nodegroup"| == 9 && |"addon"| == 5 && |"principal"| == 9 && |"policy"| == 6 && |"cluster"| == 7 && |"issuer"| == 6;
    assert p.Spell()[0] == q.Spell()[0];
  }

  ghost predicate GoodPieces(pieces: seq<Piece>) {
    && |pieces| > 0 && pieces[0].Lit?
    && (forall i, j :: 0 <= i < j < |pieces| && pieces[i].Par? && pieces[j].Par? ==> pieces[i] != pieces[j])
  }

  lemma TableIsGood(h: Handler)
    ensures GoodPieces(Registration(h).pieces)
  {
    var p := Registration(h).pieces;
    assert |p| > 0 && p[0].Lit? && |p| <= 6;
  }

  /** A good pattern is what its text splits into, and meets the conditions of the round trip. */
  lemma SpelledPattern(pieces: seq<Piece>)
    requires GoodPieces(pieces)
    ensures SplitPath(PathOf(SpellAll(pieces))) == SpellAll(pieces) && GoodPattern(SpellAll(pieces))
  {
    var p := SpellAll(pieces);
    forall i | 0 <= i < |p| ensures p[i] != "" && '/' !in p[i] && (IsParam(p[i]) <==> pieces[i].Par?) {
      match pieces[i]
      case Lit(w) => SpellingIsPlain(w);
      case Par(q) => ParamSpellings(q);
    }
    forall i, j | 0 <= i < j < |p| && IsParam(p[i]) && IsParam(p[j]) ensures p[i] != p[j] {
      var x, y := pieces[i].param, pieces[j].param;
      assert p[i][1..] == x.Spell() && p[j][1..] == y.Spell();
      if p[i] == p[j] {
        ParamSpellingInjective(x, y);
      }
    }
    SplitPathOf(p);
  }

  lemma SpelledAppend(handlers: seq<Handler>, h: Handler)
    ensures Spelled(handlers + [h]) == Spelled(handlers) + [Register(h)]
  {
  }

  predicate PiecesOverlap(p: seq<Piece>, q: seq<Piece>) {
    && |p| == |q|
    && forall i :: 0 <= i < |p| && p[i].Lit? && q[i].Lit? ==> p[i] == q[i]
  }

  lemma PiecesTellPatternsApart(p: seq<Piece>, q: seq<Piece>)
    requires Overlap(SpellAll(p), SpellAll(q))
    ensures PiecesOverlap(p, q)
  {
    assert |p| == |SpellAll(p)| && |q| == |SpellAll(q)|;
    forall i | 0 <= i < |p| && p[i].Lit? && q[i].Lit? ensures p[i] == q[i] {
      SpellingIsPlain(p[i].word);
      SpellingIsPlain(q[i].word);
      assert SpellAll(p)[i] == SpellAll(q)[i];
      SpellingInjective(p[i].word, q[i].word);
    }
  }

  /** What tells the patterns apart: method, length, and the first and third segments (the first is
      always literal). */
  datatype Marks = Marks(verb: Verb, length: nat, first: Word, third: Option<Word>)

  ghost function MarksOf(h: Handler): Marks {
    match h
    case CreateCluster => Marks(Post, 1, Clusters, None)
    case ListClusters => Marks(Get, 1, Clusters, None)
    case DescribeCluster => Marks(Get, 2, Clusters, None)
    case DeleteCluster => Marks(Delete, 2, Clusters, None)
    case CreateNodegroup => Marks(Post, 3, Clusters, Some(NodeGroups))
    case ListNodegroups => Marks(Get, 3, Clusters, Some(NodeGroups))
    case DescribeNodegroup => Marks(Get, 4, Clusters, Some(NodeGroups))
    case DeleteNodegroup => Marks(Delete, 4, Clusters, Some(NodeGroups))
    case CreateAddon => Marks(Post, 3, Clusters, Some(Addons))
    case ListAddons => Marks(Get, 3, Clusters, Some(Addons))
    case DescribeAddon => Marks(Get, 4, Clusters, Some(Addons))
    case DeleteAddon => Marks(Delete, 4, Clusters, Some(Addons))
    case DescribeAddonVersions => Marks(Get, 2, Addons, None)
    case CreateAccessEntry => Marks(Post, 3, Clusters, Some(AccessEntries))
    case ListAccessEntries => Marks(Get, 3, Clusters, Some(AccessEntries))
    case DescribeAccessEntry => Marks(Get, 4, Clusters, Some(AccessEntries))
    case DeleteAccessEntry => Marks(Delete, 4, Clusters, Some(AccessEntries))
    case AssociateAccessPolicy => Marks(Post, 5, Clusters, Some(AccessEntries))
    case ListAssociatedAccessPolicies => Marks(Get, 5, Clusters, Some(AccessEntries))
    case DisassociateAccessPolicy => Marks(Delete, 6, Clusters, Some(AccessEntries))
    case ListAccessPolicies => Marks(Get, 1, AccessPolicies, None)
    case TokenReview => Marks(Post, 3, Eksuvia, None)
    case OIDCDiscovery => Marks(Get, 4, Id, Some(WellKnown))
    case OIDCKeys => Marks(Get, 3, Id, Some(Keys))
    case Health => Marks(Get, 2, Eksuvia, None)
    case MintIRSAToken => Marks(Post, 4, Eksuvia, None)
  }

  lemma MarksFit(h: Handler)
    ensures var p := Registration(h).pieces;
            var m := MarksOf(h);
            && Registration(h).verb == m.verb && |p| == m.length && |p| > 0 && p[0] == Lit(m.first)
            && (m.third.Some? <==> |p| > 2 && p[2].Lit?)
            && (m.third.Some? ==> p[2] == Lit(m.third.value))
  {
  }

  lemma MarksDiffer(g: Handler, h: Handler)
    requires MarksOf(g).verb == MarksOf(h).verb && MarksOf(g).length == MarksOf(h).length && MarksOf(g).first == MarksOf(h).first
    requires MarksOf(g).third.Some? && MarksOf(h).third.Some? ==> MarksOf(g).third == MarksOf(h).third
    ensures g == h
  {
  }

  /** No two routes of the table with one method can match one path. */
  lemma TableUnambiguous()
    ensures Unambiguous(Spelled(TABLE))
  {
    var routes := Spelled(TABLE);
    forall x, y | x in routes && y in routes && x != y && x.verb == y.verb ensures !Overlap(x.segments, y.segments) {
      var i :| 0 <= i < |TABLE| && routes[i] == x;
      var j :| 0 <= j < |TABLE| && routes[j] == y;
      RegistrationsApart(TABLE[i], TABLE[j]);
    }
  }

  lemma OverlappingPieces(g: Handler, h: Handler)
    requires Registration(g).verb == Registration(h).verb && PiecesOverlap(Registration(g).pieces, Registration(h).pieces)
    ensures g == h
  {
    MarksFit(g);
    MarksFit(h);
    MarksDiffer(g, h);
  }

  lemma RegistrationsApart(g: Handler, h: Handler)
    requires g != h && Register(g).verb == Register(h).verb
    ensures !Overlap(Register(g).segments, Register(h).segments)
  {
    VerbInjective(Registration(g).verb, Registration(h).verb);
    if Overlap(Register(g).segments, Register(h).segments) {
      PiecesTellPatternsApart(Registration(g).pieces, Registration(h).pieces);
      OverlappingPieces(g, h);
    }
  }

  /** End to end: a client that percent-encodes non-empty values into the path registered for `h`,
      and uses its method, reaches `h` with exactly those values, and nothing else. */
  lemma ClientReachesHandler(h: Handler, values: Params, texts: seq<string>, fallback: bool, out: Outcome)
    requires h in TABLE
    requires Fills(SpellAll(Registration(h).pieces), values, texts) && Last(texts) != ""
    requires Dispatches(Spelled(TABLE), fallback, Registration(h).verb.Spell(), SplitPath(PathOf(texts)), out)
    ensures out.Handled? && out.handler == h && out.params.Keys == ParamNames(SpellAll(Registration(h).pieces))
    ensures forall name :: name in out.params ==> name in values && out.params[name] == values[name]
  {
    var routes, r := Spelled(TABLE), Register(h);
    var segments := SplitPath(PathOf(texts));
    TableIsGood(h);
    SpelledPattern(Registration(h).pieces);
    RouteRoundTrip(r.segments, values, texts);
    OnlyMatch(h, segments, fallback, out);
  }

  /** A request that matches the route of `h`, with its method, goes to `h`. */
  lemma OnlyMatch(h: Handler, segments: seq<string>, fallback: bool, out: Outcome)
    requires h in TABLE && Matches(Register(h).segments, segments)
    requires Dispatches(Spelled(TABLE), fallback, Register(h).verb, segments, out)
    ensures out.Handled? && out.handler == h && out.params == Bindings(Register(h).segments, segments)
  {
    var routes, r := Spelled(TABLE), Register(h);
    var i :| 0 <= i < |TABLE| && TABLE[i] == h;
    assert routes[i] == r && r in routes;
    DispatchOutcome(routes, fallback, r.verb, segments, out);
    TableUnambiguous();
    UnambiguousOneMatch(routes, r.verb, segments);
  }
}
