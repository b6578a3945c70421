/** internal/identity/resolver.go: from a verified AWS identity to a Kubernetes identity. */
module Resolver {
  import opened Text
  import opened Model
  import Arn

  datatype AwsIdentity = AwsIdentity(arn: string, canonical: string, account: string, userId: string, session: string)

  datatype Source = FromAccessEntry | FromAwsAuth

  datatype KubeIdentity = KubeIdentity(username: string, uid: string, groups: seq<string>, source: Source)

  /** One entry of `mapRoles` or `mapUsers`. */
  datatype Mapping = Mapping(arn: string, username: string, groups: seq<string>)

  datatype AwsAuth = AwsAuth(roles: seq<Mapping>, users: seq<Mapping>)

  datatype Resolver = Resolver(mode: string, entries: map<string, Entry>, awsAuth: Option<AwsAuth>) {
    predicate EntriesEnabled() {
      mode == MODE_API || mode == MODE_API_AND_CONFIG_MAP
    }

    predicate ConfigMapEnabled() {
      mode == MODE_CONFIG_MAP || mode == MODE_API_AND_CONFIG_MAP
    }
  }

  /* ---------- Template expansion ---------- */

  datatype Variable = SessionName | AccountID | Ec2PrivateDnsName | AccessKeyID {
    function Key(): string {
      match this
      case SessionName => "{{SessionName}}"
      case AccountID => "{{AccountID}}"
      case Ec2PrivateDnsName => "{{EC2PrivateDNSName}}"
      case AccessKeyID => "{{AccessKeyID}}"
    }

    function Value(aws: AwsIdentity): string {
      match this
      case SessionName => aws.session
      case AccountID => aws.account
      case Ec2PrivateDnsName => aws.session
      case AccessKeyID => ""
    }
  }

  /** The variable whose key starts `s`, in the order the replacer lists them. */
  function VariableAt(s: string): (v: Option<Variable>)
    ensures v.Some? ==> HasPrefix(s, v.value.Key()) && 0 < |v.value.Key()| <= |s|
  {
    if HasPrefix(s, SessionName.Key()) then Some(SessionName)
    else if HasPrefix(s, AccountID.Key()) then Some(AccountID)
    else if HasPrefix(s, Ec2PrivateDnsName.Key()) then Some(Ec2PrivateDnsName)
    else if HasPrefix(s, AccessKeyID.Key()) then Some(AccessKeyID)
    else None
  }

  /** One left-to-right pass without overlapping matches, as `strings.NewReplacer` makes. */
  function ExpandTemplates(s: string, aws: AwsIdentity): string
    decreases |s|
  {
    if s == "" then ""
    else
      match VariableAt(s)
      case Some(v) => v.Value(aws) + ExpandTemplates(s[|v.Key()|..], aws)
      case None => [s[0]] + ExpandTemplates(s[1..], aws)
  }

  /** What the four variables stand for, and that everything else is copied. */
  lemma ExpandMeans(s: string, aws: AwsIdentity)
    ensures ExpandTemplates("", aws) == ""
    ensures ExpandTemplates("{{SessionName}}" + s, aws) == aws.session + ExpandTemplates(s, aws)
    ensures ExpandTemplates("{{AccountID}}" + s, aws) == aws.account + ExpandTemplates(s, aws)
    ensures ExpandTemplates("{{EC2PrivateDNSName}}" + s, aws) == aws.session + ExpandTemplates(s, aws)
    ensures ExpandTemplates("{{AccessKeyID}}" + s, aws) == ExpandTemplates(s, aws)
    ensures s != "" && !StartsVariable(s) ==> ExpandTemplates(s, aws) == [s[0]] + ExpandTemplates(s[1..], aws)
  {
    VariablesDiffer();
    VariableStarts(SessionName, s);
    VariableStarts(AccountID, s);
    VariableStarts(Ec2PrivateDnsName, s);
    VariableStarts(AccessKeyID, s);
  }

  ghost predicate StartsVariable(s: string) {
    "{{SessionName}}" <= s || "{{AccountID}}" <= s || "{{EC2PrivateDNSName}}" <= s || "{{AccessKeyID}}" <= s
  }

  /** No variable's text is the beginning of another's. */
  lemma VariablesDiffer()
    ensures forall v: Variable :: |v.Key()| > 6
    ensures forall v: Variable, w: Variable :: v.Key()[2] == w.Key()[2] && v.Key()[5] == w.Key()[5] ==> v == w
  {
    assert SessionName.Key()[2] == 'S' && Ec2PrivateDnsName.Key()[2] == 'E';
    assert AccountID.Key()[2] == 'A' && AccountID.Key()[5] == 'o';
    assert AccessKeyID.Key()[2] == 'A' && AccessKeyID.Key()[5] == 'e';
  }

  lemma VariableStarts(v: Variable, s: string)
    ensures VariableAt(v.Key() + s) == Some(v) && (v.Key() + s)[|v.Key()|..] == s
  {
    VariablesDiffer();
    var w := VariableAt(v.Key() + s);
    assert v.Key() <= v.Key() + s;
    if w.Some? {
      assert forall i :: i in {2, 5} ==> w.value.Key()[i] == (v.Key() + s)[i] == v.Key()[i];
    }
  }

  ghost predicate TemplateFree(s: string) {
    forall i :: 0 <= i < |s| ==> VariableAt(s[i..]).None?
  }

  lemma {:induction false} ExpandLiteral(s: string, aws: AwsIdentity)
    requires TemplateFree(s)
    ensures ExpandTemplates(s, aws) == s
    decreases |s|
  {
    if s != "" {
      assert s[0..] == s;
      var t := s[1..];
      forall i | 0 <= i < |t| ensures VariableAt(t[i..]).None? {
        assert t[i..] == s[i + 1..];
      }
      ExpandLiteral(t, aws);
    }
  }

  lemma {:induction false} ExpandShrinks(s: string, aws: AwsIdentity)
    requires aws.session == "" && aws.account == ""
    ensures |ExpandTemplates(s, aws)| <= |s|
    ensures ExpandTemplates(s, aws) == s ==> TemplateFree(s)
    decreases |s|
  {
    if s != "" {
      match VariableAt(s)
      case Some(v) => ExpandShrinks(s[|v.Key()|..], aws);
      case None =>
        var t := s[1..];
        ExpandShrinks(t, aws);
        if ExpandTemplates(s, aws) == s {
          assert ([s[0]] + ExpandTemplates(t, aws))[1..] == t;
          forall i | 0 <= i < |s| ensures VariableAt(s[i..]).None? {
            if i == 0 {
              assert s[0..] == s;
            } else {
              assert s[i..] == t[i - 1..];
            }
          }
        }
    }
  }

  /** A caller the token verifier can name: its canonical ARN and session name come from its ARN. */
  ghost predicate Possible(aws: AwsIdentity) {
    Arn.Canonicalize(aws.arn) == Arn.Ok(aws.canonical) && aws.session == Arn.SessionName(aws.arn)
  }

  /** The caller with a canonical ARN, no account and no session. */
  function Bare(key: string): AwsIdentity {
    AwsIdentity(key, key, "", "", "")
  }

  lemma BareIsPossible(key: string)
    requires Arn.Canonicalize(key) == Arn.Ok(key)
    ensures Possible(Bare(key))
  {
    Arn.CanonicalizeIdempotent(key);
  }

  /** A string is left alone for every possible caller exactly when it contains no template variable. */
  lemma TemplateFreeIff(s: string)
    ensures TemplateFree(s) <==> forall aws :: Possible(aws) ==> ExpandTemplates(s, aws) == s
  {
    if TemplateFree(s) {
      forall aws | Possible(aws) ensures ExpandTemplates(s, aws) == s {
        ExpandLiteral(s, aws);
      }
    }
    var root := Arn.ARN("aws", "iam", "", "0", "root");
    assert '/' !in root.resource;
    Arn.RootIsCanonical(root);
    BareIsPossible(root.String());
    ExpandShrinks(s, Bare(root.String()));
  }

  ghost function ExpandAll(groups: seq<string>, aws: AwsIdentity): seq<string> {
    seq(|groups|, i requires 0 <= i < |groups| => ExpandTemplates(groups[i], aws))
  }

  method ExpandGroupTemplates(groups: seq<string>, aws: AwsIdentity) returns (out: seq<string>)
    ensures out == ExpandAll(groups, aws)
  {
    out := [];
    for i := 0 to |groups|
      invariant out == ExpandAll(groups[..i], aws)
    {
      out := out + [ExpandTemplates(groups[i], aws)];
      assert groups[..i + 1] == groups[..i] + [groups[i]];
    }
    assert groups[..|groups|] == groups;
  }

  /* ---------- ARN matching ---------- */

  predicate ArnMatches(configured: string, canonical: string) {
    && configured != ""
    && (|| EqualFold(configured, canonical)
        || EqualFold(Arn.StripPath(configured), Arn.StripPath(canonical)))
  }

  /** On accepted ARNs matching is case-insensitive equality of the path-stripped forms. */
  lemma MatchesIsStrippedEquality(a: string, b: string)
    requires Arn.Parse(a).Ok? && Arn.Parse(b).Ok?
    ensures ArnMatches(a, b) <==> Lower(Arn.StripPath(a)) == Lower(Arn.StripPath(b))
  {
    Arn.StripPathFolded(a);
    Arn.StripPathFolded(b);
    Arn.StringOfParse(a);
    Arn.Parts6(Arn.Parse(a).value);
  }

  /** A string that is not an ARN matches what it, or the stripped form, is equal to up to case;
      the empty string matches nothing. */
  lemma MatchesOutsideParse(a: string, b: string)
    requires Arn.Parse(a).Err?
    ensures ArnMatches(a, b) <==> a != "" && (Lower(a) == Lower(b) || Lower(a) == Lower(Arn.StripPath(b)))
  {
  }

  /** ... and therefore an equivalence relation. */
  lemma MatchesIsEquivalence(a: string, b: string, c: string)
    requires Arn.Parse(a).Ok? && Arn.Parse(b).Ok? && Arn.Parse(c).Ok?
    ensures ArnMatches(a, a)
    ensures ArnMatches(a, b) ==> ArnMatches(b, a)
    ensures ArnMatches(a, b) && ArnMatches(b, c) ==> ArnMatches(a, c)
  {
    MatchesIsStrippedEquality(a, a);
    MatchesIsStrippedEquality(a, b);
    MatchesIsStrippedEquality(b, a);
    MatchesIsStrippedEquality(b, c);
    MatchesIsStrippedEquality(a, c);
  }

  /** `a` printed with an upper-case scheme, which `Parse` rejects. */
  function Shouted(a: Arn.ARN): string {
    Join(["ARN", a.partition, a.service, a.region, a.account, a.resource], ':')
  }

  lemma ShoutedRejected(a: Arn.ARN)
    requires a.WellFormed()
    ensures Arn.Parse(Shouted(a)).Err?
  {
    var parts := ["ARN", a.partition, a.service, a.region, a.account, a.resource];
    assert parts[..5] == ["ARN", a.partition, a.service, a.region, a.account];
    assert ':' !in "ARN";
    SplitNJoin(parts, ':');
    assert "ARN"[0] != "arn"[0];
  }

  lemma ShoutedFolds(a: Arn.ARN)
    ensures EqualFold(Shouted(a), a.String())
  {
    var parts := ["ARN", a.partition, a.service, a.region, a.account, a.resource];
    var quiet := ["arn", a.partition, a.service, a.region, a.account, a.resource];
    LowerJoin(parts, ':');
    LowerJoin(quiet, ':');
    assert Lower("ARN") == "arn" && Lower("arn") == "arn";
    assert LowerAll(parts) == LowerAll(quiet);
  }

  /** Outside the accepted ARNs it is not: an upper-case "ARN:" scheme makes a string that folds to
      `a` but whose path is never stripped, so matching fails to be transitive through `a`. */
  lemma MatchesNotTransitiveOutsideParse(a: Arn.ARN)
    requires a.WellFormed() && |Arn.Segments(a)| > 2
    ensures && Arn.Parse(Shouted(a)).Err?
            && ArnMatches(Shouted(a), a.String())
            && ArnMatches(a.String(), Arn.StripPath(a.String()))
            && !ArnMatches(Shouted(a), Arn.StripPath(a.String()))
  {
    ShoutedRejected(a);
    ShoutedFolds(a);
    Arn.ParseOfString(a);
    Arn.StripPathParses(a.String());
    Arn.StripPathIdempotent(a.String());
    StrippedShorter(a);
  }

  /** The exact condition: matching is transitive through an accepted ARN, for any strings on either
      side, if and only if that ARN has no path. */
  lemma MatchesTransitiveThroughIff(b: string)
    requires Arn.Parse(b).Ok?
    ensures (forall a, c :: ArnMatches(a, b) && ArnMatches(b, c) ==> ArnMatches(a, c)) <==> |Arn.Segments(Arn.Parse(b).value)| <= 2
  {
    Arn.StringOfParse(b);
    if |Arn.Segments(Arn.Parse(b).value)| <= 2 {
      forall a, c | ArnMatches(a, b) && ArnMatches(b, c) ensures ArnMatches(a, c) {
        MatchesPathFree(a, b);
        MatchesPathFree(c, b);
      }
    } else {
      MatchesNotTransitiveOutsideParse(Arn.Parse(b).value);
    }
  }

  /** Whatever matches a path-free ARN strips to it, up to case. */
  lemma MatchesPathFree(x: string, b: string)
    requires Arn.Parse(b).Ok? && |Arn.Segments(Arn.Parse(b).value)| <= 2
    requires EqualFold(x, b) || EqualFold(Arn.StripPath(x), Arn.StripPath(b))
    ensures Lower(Arn.StripPath(x)) == Lower(b)
  {
    PathFreeStrip(b);
    if Arn.Parse(x).Ok? && EqualFold(x, b) {
      Arn.StripPathFolded(x);
      Arn.StripPathFolded(b);
    }
  }

  lemma PathFreeStrip(b: string)
    requires Arn.Parse(b).Ok? && |Arn.Segments(Arn.Parse(b).value)| <= 2
    ensures Arn.StripPath(b) == b
  {
    var a := Arn.Parse(b).value;
    var parts := Arn.Segments(a);
    Arn.StringOfParse(b);
    Arn.StripPathParses(b);
    JoinSplit(a.resource, '/');
    if |parts| == 2 {
      JoinCons(parts[0], [parts[1]], '/');
      assert parts == [parts[0]] + [parts[1]];
    }
  }

  lemma StrippedShorter(a: Arn.ARN)
    requires |Arn.Segments(a)| > 2
    ensures |Arn.Stripped(a).String()| < |a.String()|
  {
    var parts := Arn.Segments(a);
    JoinSplit(a.resource, '/');
    JoinMiddle(parts, '/');
    StringLength(a);
    StringLength(Arn.Stripped(a));
  }

  lemma StringLength(a: Arn.ARN)
    ensures |a.String()| == 8 + |a.partition| + |a.service| + |a.region| + |a.account| + |a.resource|
  {
    Arn.Parts6(a);
  }

  /* ---------- Access entries ---------- */

  /** The entries the source may return: the exact key if there is one, otherwise any entry whose
      key is equal up to case (it scans the map in an unspecified order). */
  ghost predicate LookupAllows(entries: map<string, Entry>, canonical: string, r: Option<Entry>) {
    if canonical in entries then r == Some(entries[canonical])
    else if exists k :: k in entries && EqualFold(k, canonical) then
      exists k :: k in entries && EqualFold(k, canonical) && r == Some(entries[k])
    else r == None
  }

  method LookupAccessEntry(entries: map<string, Entry>, canonical: string) returns (r: Option<Entry>)
    ensures LookupAllows(entries, canonical, r)
  {
    if canonical in entries {
      return Some(entries[canonical]);
    }
    var rest := entries.Keys;
    while rest != {}
      invariant rest <= entries.Keys
      invariant forall k :: k in entries && k !in rest ==> !EqualFold(k, canonical)
      decreases rest
    {
      var arn :| arn in rest;
      if EqualFold(arn, canonical) {
        return Some(entries[arn]);
      }
      rest := rest - {arn};
    }
    return None;
  }

  function Uid(aws: AwsIdentity): string {
    "aws-iam-authenticator:" + aws.account + ":" + aws.userId
  }

  function EntryIdentity(e: Entry, aws: AwsIdentity): KubeIdentity {
    KubeIdentity(ExpandTemplates(e.Subject(), aws), Uid(aws), e.groups, FromAccessEntry)
  }

  /* ---------- aws-auth ---------- */

  ghost predicate IsFirstMatch(ms: seq<Mapping>, i: int, canonical: string) {
    && 0 <= i < |ms| && ArnMatches(ms[i].arn, canonical)
    && forall j :: 0 <= j < i ==> !ArnMatches(ms[j].arn, canonical)
  }

  ghost predicate NoMatch(ms: seq<Mapping>, canonical: string) {
    forall j :: 0 <= j < |ms| ==> !ArnMatches(ms[j].arn, canonical)
  }

  ghost function MappingIdentity(m: Mapping, aws: AwsIdentity): KubeIdentity {
    KubeIdentity(ExpandTemplates(m.username, aws), Uid(aws), ExpandAll(m.groups, aws), FromAwsAuth)
  }

  /** First matching role, otherwise first matching user, otherwise nothing. */
  ghost predicate AwsAuthGives(auth: AwsAuth, aws: AwsIdentity, out: Option<KubeIdentity>) {
    || (exists i :: IsFirstMatch(auth.roles, i, aws.canonical) && out == Some(MappingIdentity(auth.roles[i], aws)))
    || (&& NoMatch(auth.roles, aws.canonical)
        && exists i :: IsFirstMatch(auth.users, i, aws.canonical) && out == Some(MappingIdentity(auth.users[i], aws)))
    || (NoMatch(auth.roles, aws.canonical) && NoMatch(auth.users, aws.canonical) && out == None)
  }

  method FromAwsAuthMap(auth: AwsAuth, aws: AwsIdentity) returns (out: Option<KubeIdentity>)
    ensures AwsAuthGives(auth, aws, out)
  {
    for i := 0 to |auth.roles|
      invariant forall j :: 0 <= j < i ==> !ArnMatches(auth.roles[j].arn, aws.canonical)
    {
      var m := auth.roles[i];
      if ArnMatches(m.arn, aws.canonical) {
        var groups := ExpandGroupTemplates(m.groups, aws);
        assert IsFirstMatch(auth.roles, i, aws.canonical);
        return Some(KubeIdentity(ExpandTemplates(m.username, aws), Uid(aws), groups, FromAwsAuth));
      }
    }
    for i := 0 to |auth.users|
      invariant forall j :: 0 <= j < i ==> !ArnMatches(auth.users[j].arn, aws.canonical)
    {
      var m := auth.users[i];
      if ArnMatches(m.arn, aws.canonical) {
        var groups := ExpandGroupTemplates(m.groups, aws);
        assert IsFirstMatch(auth.users, i, aws.canonical);
        return Some(KubeIdentity(ExpandTemplates(m.username, aws), Uid(aws), groups, FromAwsAuth));
      }
    }
    return None;
  }

  /* ---------- Resolve ---------- */

  ghost predicate HasEntryFor(r: Resolver, aws: AwsIdentity) {
    r.EntriesEnabled() && exists k :: k in r.entries && EqualFold(k, aws.canonical)
  }

  /** The rule: access entries when the mode enables them, and an entry ends the search; then
      aws-auth when the mode enables it and the ConfigMap exists; otherwise unmapped. */
  ghost predicate Gives(r: Resolver, aws: AwsIdentity, out: Option<KubeIdentity>) {
    if HasEntryFor(r, aws) then
      exists e :: LookupAllows(r.entries, aws.canonical, Some(e)) && out == Some(EntryIdentity(e, aws))
    else if r.ConfigMapEnabled() && r.awsAuth.Some? then AwsAuthGives(r.awsAuth.value, aws, out)
    else out == None
  }

  /* ---------- The rule in plain text ---------- */

  ghost predicate Names(k: KubeIdentity, username: string, aws: AwsIdentity) {
    k.username == ExpandTemplates(username, aws) && k.uid == "aws-iam-authenticator:" + aws.account + ":" + aws.userId
  }

  /** The entry's groups as they are; its username, or else its principal, expanded. */
  ghost predicate NamedByEntry(e: Entry, aws: AwsIdentity, k: KubeIdentity) {
    k.source == FromAccessEntry && Names(k, if e.username == "" then e.principal else e.username, aws) && k.groups == e.groups
  }

  ghost predicate NamedByMapping(m: Mapping, aws: AwsIdentity, k: KubeIdentity) {
    && k.source == FromAwsAuth && Names(k, m.username, aws)
    && |k.groups| == |m.groups| && forall i :: 0 <= i < |m.groups| ==> k.groups[i] == ExpandTemplates(m.groups[i], aws)
  }

  ghost predicate HasKey(entries: map<string, Entry>, canonical: string) {
    exists key :: key in entries && Lower(key) == Lower(canonical)
  }

  ghost predicate FromEntries(entries: map<string, Entry>, aws: AwsIdentity, out: Option<KubeIdentity>) {
    if aws.canonical in entries then out.Some? && NamedByEntry(entries[aws.canonical], aws, out.value)
    else out.Some? && exists key :: key in entries && Lower(key) == Lower(aws.canonical) && NamedByEntry(entries[key], aws, out.value)
  }

  ghost predicate NamedByFirst(ms: seq<Mapping>, aws: AwsIdentity, out: Option<KubeIdentity>) {
    exists i :: IsFirstMatch(ms, i, aws.canonical) && out.Some? && NamedByMapping(ms[i], aws, out.value)
  }

  ghost predicate FromConfigMap(auth: Option<AwsAuth>, aws: AwsIdentity, out: Option<KubeIdentity>) {
    if auth.None? then out == None
    else if !NoMatch(auth.value.roles, aws.canonical) then NamedByFirst(auth.value.roles, aws, out)
    else if !NoMatch(auth.value.users, aws.canonical) then NamedByFirst(auth.value.users, aws, out)
    else out == None
  }

  /** Which mechanism answers in each authentication mode. */
  ghost predicate PerMode(r: Resolver, aws: AwsIdentity, out: Option<KubeIdentity>) {
    && (r.mode == "API" ==> if HasKey(r.entries, aws.canonical) then FromEntries(r.entries, aws, out) else out == None)
    && (r.mode == "CONFIG_MAP" ==> FromConfigMap(r.awsAuth, aws, out))
    && (r.mode == "API_AND_CONFIG_MAP" ==>
          if HasKey(r.entries, aws.canonical) then FromEntries(r.entries, aws, out) else FromConfigMap(r.awsAuth, aws, out))
    && (r.mode !in ["API", "CONFIG_MAP", "API_AND_CONFIG_MAP"] ==> out == None)
  }

  lemma NamedByEntryIs(e: Entry, aws: AwsIdentity, k: KubeIdentity)
    ensures NamedByEntry(e, aws, k) <==> k == EntryIdentity(e, aws)
  {
  }

  lemma NamedByMappingIs(m: Mapping, aws: AwsIdentity, k: KubeIdentity)
    ensures NamedByMapping(m, aws, k) <==> k == MappingIdentity(m, aws)
  {
  }

  lemma FromEntriesIs(r: Resolver, aws: AwsIdentity, out: Option<KubeIdentity>)
    requires HasEntryFor(r, aws)
    ensures FromEntries(r.entries, aws, out) <==> Gives(r, aws, out)
  {
    forall e, k ensures NamedByEntry(e, aws, k) <==> k == EntryIdentity(e, aws) {
      NamedByEntryIs(e, aws, k);
    }
    if Gives(r, aws, out) {
      var e :| LookupAllows(r.entries, aws.canonical, Some(e)) && out == Some(EntryIdentity(e, aws));
    }
    if FromEntries(r.entries, aws, out) {
      var key :| key in r.entries && Lower(key) == Lower(aws.canonical) && NamedByEntry(r.entries[key], aws, out.value)
        && (aws.canonical in r.entries ==> key == aws.canonical);
      assert LookupAllows(r.entries, aws.canonical, Some(r.entries[key]));
    }
  }

  lemma FromConfigMapIs(auth: AwsAuth, aws: AwsIdentity, out: Option<KubeIdentity>)
    ensures FromConfigMap(Some(auth), aws, out) <==> AwsAuthGives(auth, aws, out)
  {
    forall m, k ensures NamedByMapping(m, aws, k) <==> k == MappingIdentity(m, aws) {
      NamedByMappingIs(m, aws, k);
    }
    FirstMatchExists(auth.roles, aws.canonical);
    FirstMatchExists(auth.users, aws.canonical);
  }

  lemma {:induction false} FirstMatchExists(ms: seq<Mapping>, canonical: string)
    ensures NoMatch(ms, canonical) <==> !exists i :: IsFirstMatch(ms, i, canonical)
    decreases |ms|
  {
    if |ms| > 0 {
      var n := |ms| - 1;
      FirstMatchExists(ms[..n], canonical);
      if i :| IsFirstMatch(ms[..n], i, canonical) {
        assert IsFirstMatch(ms, i, canonical);
      } else if ArnMatches(ms[n].arn, canonical) {
        assert forall j :: 0 <= j < n ==> ms[..n][j] == ms[j];
        assert IsFirstMatch(ms, n, canonical);
      }
    }
  }

  /** The rule is the table of the modes. */
  lemma GivesIsPerMode(r: Resolver, aws: AwsIdentity, out: Option<KubeIdentity>)
    ensures Gives(r, aws, out) <==> PerMode(r, aws, out)
  {
    ModesDiffer();
    if HasEntryFor(r, aws) {
      FromEntriesIs(r, aws, out);
    } else if r.awsAuth.Some? {
      FromConfigMapIs(r.awsAuth.value, aws, out);
    }
  }

  lemma PerModeNames(r: Resolver, aws: AwsIdentity, out: Option<KubeIdentity>)
    requires PerMode(r, aws, out) && out.Some?
    ensures out.value.uid == "aws-iam-authenticator:" + aws.account + ":" + aws.userId
  {
    ModesDiffer();
  }

  lemma ModesDiffer()
    ensures |"API"| == 3 && |"CONFIG_MAP"| == 10 && |"API_AND_CONFIG_MAP"| == 18
  {
  }

  /** In "CONFIG_MAP" changing the entries changes nothing; in "API" changing aws-auth does not. */
  lemma ModeIgnores(r: Resolver, aws: AwsIdentity, entries: map<string, Entry>, auth: Option<AwsAuth>, out: Option<KubeIdentity>)
    ensures r.mode == "CONFIG_MAP" ==> (Gives(r.(entries := entries), aws, out) <==> Gives(r, aws, out))
    ensures r.mode == "API" ==> (Gives(r.(awsAuth := auth), aws, out) <==> Gives(r, aws, out))
  {
    ModesDiffer();
    GivesIsPerMode(r, aws, out);
    GivesIsPerMode(r.(entries := entries), aws, out);
    GivesIsPerMode(r.(awsAuth := auth), aws, out);
  }

  method Resolve(r: Resolver, aws: AwsIdentity) returns (out: Option<KubeIdentity>)
    ensures Gives(r, aws, out)
    ensures PerMode(r, aws, out)
  {
    forall answer ensures Gives(r, aws, answer) <==> PerMode(r, aws, answer) {
      GivesIsPerMode(r, aws, answer);
    }
    if r.EntriesEnabled() {
      var entry := LookupAccessEntry(r.entries, aws.canonical);
      if entry.Some? {
        return Some(EntryIdentity(entry.value, aws));
      }
      assert !HasEntryFor(r, aws);
    }
    if r.ConfigMapEnabled() && r.awsAuth.Some? {
      out := FromAwsAuthMap(r.awsAuth.value, aws);
      if out.Some? {
        return out;
      }
    }
    return None;
  }

  lemma AwsAuthFunctional(auth: AwsAuth, aws: AwsIdentity, x: Option<KubeIdentity>, y: Option<KubeIdentity>)
    requires AwsAuthGives(auth, aws, x) && AwsAuthGives(auth, aws, y)
    ensures x == y
  {
  }

  /** The answer is independent of the map's iteration order exactly when every entry whose key is
      the caller's canonical ARN up to case gives the same identity, unless the exact key exists. */
  lemma OrderIndependentIff(r: Resolver, aws: AwsIdentity)
    ensures (forall x, y :: Gives(r, aws, x) && Gives(r, aws, y) ==> x == y)
       <==> (r.EntriesEnabled() && aws.canonical !in r.entries ==>
               forall j, k :: j in r.entries && k in r.entries && EqualFold(j, aws.canonical) && EqualFold(k, aws.canonical)
                 ==> EntryIdentity(r.entries[j], aws) == EntryIdentity(r.entries[k], aws))
  {
    var unique := forall x, y :: Gives(r, aws, x) && Gives(r, aws, y) ==> x == y;
    if r.EntriesEnabled() && aws.canonical !in r.entries {
      forall k | k in r.entries && EqualFold(k, aws.canonical)
        ensures Gives(r, aws, Some(EntryIdentity(r.entries[k], aws)))
      {
        assert LookupAllows(r.entries, aws.canonical, Some(r.entries[k]));
      }
    }
    if !HasEntryFor(r, aws) && r.ConfigMapEnabled() && r.awsAuth.Some? {
      forall x, y | Gives(r, aws, x) && Gives(r, aws, y) ensures x == y {
        AwsAuthFunctional(r.awsAuth.value, aws, x, y);
      }
    }
  }

  ghost predicate NoFoldTwins(entries: map<string, Entry>) {
    forall j, k :: j in entries && k in entries && EqualFold(j, k) ==> j == k
  }

  /** In particular when no two keys are equal up to case. */
  lemma ResolveDeterministic(r: Resolver, aws: AwsIdentity, x: Option<KubeIdentity>, y: Option<KubeIdentity>)
    requires NoFoldTwins(r.entries)
    requires Gives(r, aws, x) && Gives(r, aws, y)
    ensures x == y
  {
    if HasEntryFor(r, aws) {
      var e :| LookupAllows(r.entries, aws.canonical, Some(e)) && x == Some(EntryIdentity(e, aws));
      var f :| LookupAllows(r.entries, aws.canonical, Some(f)) && y == Some(EntryIdentity(f, aws));
      if aws.canonical !in r.entries {
        var j :| j in r.entries && EqualFold(j, aws.canonical) && e == r.entries[j];
        var k :| k in r.entries && EqualFold(k, aws.canonical) && f == r.entries[k];
        assert EqualFold(j, k);
      }
    } else if r.ConfigMapEnabled() && r.awsAuth.Some? {
      AwsAuthFunctional(r.awsAuth.value, aws, x, y);
    }
  }

  /** A principal with an access entry is resolved as if aws-auth did not exist: nothing is merged.
      And each mode lets only its own mechanisms answer. */
  lemma EntryShadowsConfigMap(r: Resolver, aws: AwsIdentity, out: Option<KubeIdentity>, other: Option<AwsAuth>)
    requires Gives(r, aws, out)
    ensures HasEntryFor(r, aws) ==> Gives(r.(awsAuth := other), aws, out) && out.Some? && out.value.source == FromAccessEntry
    ensures out.Some? && r.mode == MODE_API ==> out.value.source == FromAccessEntry
    ensures out.Some? && r.mode == MODE_CONFIG_MAP ==> out.value.source == FromAwsAuth
  {
  }
}
