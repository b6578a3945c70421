/** internal/awsarn/arn.go: parsing, printing and canonicalising principal ARNs. */
module Arn {
  import opened Text

  datatype Error =
    | NotEnoughSections | NoArnPrefix | MissingPartition | MissingService | MissingResource
    | UnrecognizedAssumedRole | UnrecognizedSts | UnrecognizedIam | NonIam

  datatype Result<+T> = Ok(value: T) | Err(error: Error)

  datatype ARN = ARN(partition: string, service: string, region: string, account: string, resource: string) {
    function String(): string {
      Join(["arn", partition, service, region, account, resource], ':')
    }

    /** The components `Parse` can return. */
    ghost predicate WellFormed() {
      && partition != "" && service != "" && resource != ""
      && ':' !in partition && ':' !in service && ':' !in region && ':' !in account
    }

    ghost function Folded(): ARN {
      ARN(Lower(partition), Lower(service), Lower(region), Lower(account), Lower(resource))
    }
  }

  function Parse(arn: string): Result<ARN> {
    var parts := SplitN(arn, ':', 6);
    if |parts| != 6 then Err(NotEnoughSections)
    else if parts[0] != "arn" then Err(NoArnPrefix)
    else if parts[1] == "" then Err(MissingPartition)
    else if parts[2] == "" then Err(MissingService)
    else if parts[5] == "" then Err(MissingResource)
    else Ok(ARN(parts[1], parts[2], parts[3], parts[4], parts[5]))
  }

  function Segments(a: ARN): (parts: seq<string>)
    ensures |parts| > 0
  {
    Split(a.resource, '/')
  }

  function Canonicalize(arn: string): Result<string> {
    match Parse(arn)
    case Err(e) => Err(e)
    case Ok(parsed) =>
      var parts := Segments(parsed);
      if parsed.service == "sts" then
        if parts[0] == "federated-user" then Ok(arn)
        else if parts[0] == "assumed-role" then
          if |parts| < 3 then Err(UnrecognizedAssumedRole)
          else
            var role := Join(parts[1..|parts| - 1], '/');
            Ok("arn:" + parsed.partition + ":iam::" + parsed.account + ":role/" + role)
        else Err(UnrecognizedSts)
      else if parsed.service == "iam" then
        if parts[0] == "role" || parts[0] == "user" || parts[0] == "root" || parts[0] == "federated-user" then Ok(arn)
        else Err(UnrecognizedIam)
      else Err(NonIam)
  }

  function SessionName(arn: string): string {
    match Parse(arn)
    case Err(_) => ""
    case Ok(parsed) =>
      var parts := Segments(parsed);
      if parsed.service != "sts" || |parts| < 3 || parts[0] != "assumed-role" then ""
      else Last(parts)
  }

  function StripPath(arn: string): string {
    match Parse(arn)
    case Err(_) => arn
    case Ok(parsed) =>
      var parts := Segments(parsed);
      if |parts| < 2 then arn
      else parsed.(resource := parts[0] + "/" + Last(parts)).String()
  }

  ghost predicate IsAssumedRole(arn: string) {
    Parse(arn).Ok? && Parse(arn).value.service == "sts" && Segments(Parse(arn).value)[0] == "assumed-role"
  }

  /* ---------- Parse and String are inverse ---------- */

  lemma Parts6(a: ARN)
    ensures a.String() == "arn" + ":" + (a.partition + ":" + (a.service + ":" + (a.region + ":" + (a.account + ":" + a.resource))))
  {
    JoinCons(a.account, [a.resource], ':');
    JoinCons(a.region, [a.account, a.resource], ':');
    JoinCons(a.service, [a.region, a.account, a.resource], ':');
    JoinCons(a.partition, [a.service, a.region, a.account, a.resource], ':');
    JoinCons("arn", [a.partition, a.service, a.region, a.account, a.resource], ':');
    assert [a.account] + [a.resource] == [a.account, a.resource];
    assert [a.region] + [a.account, a.resource] == [a.region, a.account, a.resource];
    assert [a.service] + [a.region, a.account, a.resource] == [a.service, a.region, a.account, a.resource];
    assert [a.partition] + [a.service, a.region, a.account, a.resource]
        == [a.partition, a.service, a.region, a.account, a.resource];
    assert ["arn"] + [a.partition, a.service, a.region, a.account, a.resource]
        == ["arn", a.partition, a.service, a.region, a.account, a.resource];
  }

  /** Whatever parses prints back to itself, and its components are well formed. */
  lemma StringOfParse(arn: string)
    requires Parse(arn).Ok?
    ensures Parse(arn).value.String() == arn && Parse(arn).value.WellFormed()
  {
    var parts := SplitN(arn, ':', 6);
    JoinSplitN(arn, ':', 6);
    SplitNClean(arn, ':', 6);
    var a := Parse(arn).value;
    assert parts == ["arn", a.partition, a.service, a.region, a.account, a.resource];
  }

  /** An ARN value survives printing and parsing exactly when it is well formed. */
  lemma ParseOfString(a: ARN)
    ensures Parse(a.String()) == Ok(a) <==> a.WellFormed()
  {
    if a.WellFormed() {
      var parts := ["arn", a.partition, a.service, a.region, a.account, a.resource];
      var head := parts[..5];
      assert head == ["arn", a.partition, a.service, a.region, a.account];
      assert ':' !in "arn";
      SplitNJoin(parts, ':');
    } else if Parse(a.String()) == Ok(a) {
      StringOfParse(a.String());
    }
  }

  /** So the accepted strings are exactly the printed forms of well-formed ARNs. */
  lemma AcceptedStrings(arn: string)
    ensures Parse(arn).Ok? <==> exists a: ARN :: a.WellFormed() && a.String() == arn
  {
    if Parse(arn).Ok? {
      StringOfParse(arn);
    }
    if a: ARN :| a.WellFormed() && a.String() == arn {
      ParseOfString(a);
    }
  }

  /* ---------- Canonicalize ---------- */

  /** Only the account and role survive from an assumed-role ARN. */
  function RoleArn(a: ARN, role: string): ARN {
    ARN(a.partition, "iam", "", a.account, "role/" + role)
  }

  lemma RoleArnString(a: ARN, role: string)
    ensures RoleArn(a, role).String() == "arn:" + a.partition + ":iam::" + a.account + ":role/" + role
  {
    Parts6(RoleArn(a, role));
    var tail := a.account + ":role/" + role;
    assert a.account + ":" + ("role/" + role) == tail;
    assert "iam" + ":" + ("" + ":" + tail) == "iam::" + tail;
    assert a.partition + ":" + ("iam::" + tail) == a.partition + ":iam::" + tail;
    assert "arn" + ":" + (a.partition + ":iam::" + tail) == "arn:" + a.partition + ":iam::" + tail;
  }

  lemma RoleSegments(role: string)
    ensures Split("role/" + role, '/')[0] == "role"
  {
    assert '/' !in "role";
    assert "role/" + role == "role" + "/" + role;
    SplitHead("role", '/', role);
  }

  /** Accepted assumed-role input: its segments, and the parsed form of its canonical ARN. */
  lemma CanonicalRole(arn: string)
    requires IsAssumedRole(arn) && Canonicalize(arn).Ok?
    ensures var a := Parse(arn).value; var parts := Segments(a);
            |parts| >= 3 &&
            Parse(Canonicalize(arn).value) == Ok(RoleArn(a, Join(parts[1..|parts| - 1], '/')))
  {
    var a := Parse(arn).value;
    var parts := Segments(a);
    var role := Join(parts[1..|parts| - 1], '/');
    StringOfParse(arn);
    RoleArnString(a, role);
    ParseOfString(RoleArn(a, role));
    assert "role/" + role != "";
  }

  /** A canonical ARN parses, is its own canonical form, and never names an assumed-role session. */
  lemma CanonicalizeIdempotent(arn: string)
    requires Canonicalize(arn).Ok?
    ensures var c := Canonicalize(arn).value;
            Parse(c).Ok? && Canonicalize(c) == Ok(c) && !IsAssumedRole(c)
  {
    if IsAssumedRole(arn) {
      CanonicalRole(arn);
      var parts := Segments(Parse(arn).value);
      RoleSegments(Join(parts[1..|parts| - 1], '/'));
    }
  }

  /** An account's root user is its own canonical form. */
  lemma RootIsCanonical(a: ARN)
    requires a.WellFormed() && a.service == "iam" && a.resource == "root" && '/' !in a.resource
    ensures Canonicalize(a.String()) == Ok(a.String())
  {
    ParseOfString(a);
    assert Segments(a)[0] == "root";
  }

  lemma Regroup(role: string, session: string)
    ensures "assumed-role" + "/" + (role + "/" + session) == "assumed-" + ("role/" + role) + "/" + session
  {
    assert "assumed-role" + "/" == "assumed-" + "role/";
    assert ("assumed-" + "role/") + role == "assumed-" + ("role/" + role);
    var head := "assumed-role" + "/";
    assert head + (role + "/" + session) == head + role + "/" + session;
  }

  lemma SessionParts(parts: seq<string>)
    requires |parts| >= 3 && parts[0] == "assumed-role"
    ensures Join(parts, '/') == "assumed-" + ("role/" + Join(parts[1..|parts| - 1], '/')) + "/" + Last(parts)
  {
    JoinMiddle(parts, '/');
    Regroup(Join(parts[1..|parts| - 1], '/'), Last(parts));
  }

  /** Nothing but the region and the session name is lost: they and the canonical ARN rebuild the
      session ARN, and a session name never contains a slash. */
  lemma SessionRebuilds(arn: string)
    requires IsAssumedRole(arn) && Canonicalize(arn).Ok?
    ensures Parse(Canonicalize(arn).value).Ok?
    ensures var c := Parse(Canonicalize(arn).value).value;
            && '/' !in SessionName(arn)
            && c.service == "iam" && c.region == ""
            && arn == ARN(c.partition, "sts", Parse(arn).value.region, c.account,
                          "assumed-" + c.resource + "/" + SessionName(arn)).String()
  {
    var a := Parse(arn).value;
    CanonicalRole(arn);
    StringOfParse(arn);
    JoinSplit(a.resource, '/');
    SessionParts(Segments(a));
  }

  /** Hence two sessions with one canonical ARN, region and session name are one session. */
  lemma SessionDetermined(x: string, y: string)
    requires IsAssumedRole(x) && IsAssumedRole(y)
    requires Canonicalize(x).Ok? && Canonicalize(x) == Canonicalize(y)
    requires SessionName(x) == SessionName(y) && Parse(x).value.region == Parse(y).value.region
    ensures x == y
  {
    SessionRebuilds(x);
    SessionRebuilds(y);
  }

  /* ---------- Which ARNs are accepted ---------- */

  /** A resource of this kind: the kind alone, or followed by a slash and anything. */
  ghost predicate OfKind(resource: string, kind: string) {
    resource == kind || kind + "/" <= resource
  }

  /** A session of a role, which may have a path. */
  ghost predicate IsSession(resource: string, role: string, session: string) {
    resource == "assumed-role/" + role + "/" + session && '/' !in session
  }

  lemma HeadPrecedes(resource: string)
    ensures var parts := Split(resource, '/');
            if |parts| == 1 then parts[0] == resource else parts[0] + "/" <= resource
  {
    var parts := Split(resource, '/');
    JoinSplit(resource, '/');
    if |parts| > 1 {
      JoinCons(parts[0], parts[1..], '/');
      assert parts == [parts[0]] + parts[1..];
      assert parts[0] + "/" + Join(parts[1..], '/') == resource;
    }
  }

  lemma FirstSegment(resource: string, kind: string)
    requires '/' !in kind
    ensures Split(resource, '/')[0] == kind <==> OfKind(resource, kind)
  {
    HeadPrecedes(resource);
    if kind + "/" <= resource {
      var rest := resource[|kind| + 1..];
      assert resource == kind + "/" + rest;
      SplitHead(kind, '/', rest);
    }
  }

  lemma KindSegments(kind: string, tail: string, role: string, session: string)
    requires '/' !in kind && '/' !in session && tail == role + ['/'] + session
    ensures Split(kind + ['/'] + tail, '/') == [kind] + Split(role, '/') + [session]
    ensures Join(Split(role, '/'), '/') == role
  {
    SplitHead(kind, '/', tail);
    SplitLast(role, '/', session);
    JoinSplit(role, '/');
    Associates([kind], Split(role, '/'), [session]);
  }

  lemma Associates(a: seq<string>, b: seq<string>, c: seq<string>)
    ensures a + (b + c) == a + b + c
  {
  }

  lemma EndsAndMiddle(first: string, middle: seq<string>, last: string)
    ensures var all := [first] + middle + [last];
            |all| == |middle| + 2 && all[0] == first && Last(all) == last && all[1..|all| - 1] == middle
  {
  }

  /** What `Split` makes of a session. */
  lemma SessionSegments(resource: string, role: string, session: string)
    requires IsSession(resource, role, session)
    ensures var parts := Split(resource, '/');
            |parts| >= 3 && parts[0] == "assumed-role" && Last(parts) == session && Join(parts[1..|parts| - 1], '/') == role
  {
    var kind := "assumed-role";
    KindsArePlain();
    SessionGroups(role, session);
    KindSegments(kind, role + "/" + session, role, session);
    EndsAndMiddle(kind, Split(role, '/'), session);
  }

  lemma SessionGroups(role: string, session: string)
    ensures "assumed-role" + "/" + (role + "/" + session) == "assumed-role/" + role + "/" + session
  {
  }

  lemma SessionText(resource: string, role: string, session: string)
    requires resource == "assumed-role" + "/" + (role + "/" + session) && '/' !in session
    ensures IsSession(resource, role, session)
  {
    SessionGroups(role, session);
  }

  /** Three segments or more, the first of them "assumed-role", are a session. */
  lemma SegmentsAreSession(resource: string)
    requires |Split(resource, '/')| >= 3 && Split(resource, '/')[0] == "assumed-role"
    ensures exists role, session :: IsSession(resource, role, session)
  {
    var parts := Split(resource, '/');
    JoinSplit(resource, '/');
    JoinMiddle(parts, '/');
    SessionText(resource, Join(parts[1..|parts| - 1], '/'), Last(parts));
  }

  lemma KindsArePlain()
    ensures '/' !in "role" && '/' !in "user" && '/' !in "root" && '/' !in "federated-user" && '/' !in "assumed-role"
  {
  }

  lemma SessionKind(resource: string, role: string, session: string)
    requires IsSession(resource, role, session)
    ensures !OfKind(resource, "federated-user")
  {
    KindsArePlain();
    assert resource[0] == 'a' && "federated-user"[0] == 'f';
  }

  /** The principals that have a canonical form, and that only a session's differs from itself. */
  lemma CanonicalizeAccepts(a: ARN)
    requires a.WellFormed()
    ensures Canonicalize(a.String()).Ok? <==>
              || (a.service == "iam"
                  && (OfKind(a.resource, "role") || OfKind(a.resource, "user") || OfKind(a.resource, "root")
                      || OfKind(a.resource, "federated-user")))
              || (a.service == "sts"
                  && (OfKind(a.resource, "federated-user") || exists role, session :: IsSession(a.resource, role, session)))
    ensures Canonicalize(a.String()).Ok? && !(a.service == "sts" && OfKind(a.resource, "assumed-role")) ==>
              Canonicalize(a.String()) == Ok(a.String())
  {
    ParseOfString(a);
    KindsArePlain();
    FirstSegment(a.resource, "role");
    FirstSegment(a.resource, "user");
    FirstSegment(a.resource, "root");
    FirstSegment(a.resource, "federated-user");
    FirstSegment(a.resource, "assumed-role");
    if role, session :| IsSession(a.resource, role, session) {
      SessionSegments(a.resource, role, session);
    } else if |Segments(a)| >= 3 && Segments(a)[0] == "assumed-role" {
      SegmentsAreSession(a.resource);
    }
  }

  /** A session becomes the role it came from, path included; its name is what follows the last slash. */
  lemma SessionBecomesRole(a: ARN, role: string, session: string)
    requires a.WellFormed() && a.service == "sts" && IsSession(a.resource, role, session)
    ensures Canonicalize(a.String()) == Ok(ARN(a.partition, "iam", "", a.account, "role/" + role).String())
    ensures SessionName(a.String()) == session
  {
    ParseOfString(a);
    SessionSegments(a.resource, role, session);
    RoleArnString(a, role);
  }

  /** Nothing else has a session name. */
  lemma NoOtherSessionName(a: ARN)
    requires a.WellFormed() && !(a.service == "sts" && exists role, session :: IsSession(a.resource, role, session))
    ensures SessionName(a.String()) == ""
  {
    ParseOfString(a);
    if |Segments(a)| >= 3 && Segments(a)[0] == "assumed-role" {
      SegmentsAreSession(a.resource);
    }
  }

  /** Stripping keeps what precedes the first slash and what follows the last one. */
  lemma StripPathKeeps(a: ARN, kind: string, path: string, last: string)
    requires a.WellFormed() && '/' !in kind && '/' !in last
    ensures a.resource == kind ==> StripPath(a.String()) == a.String()
    ensures a.resource == kind + "/" + last ==> StripPath(a.String()) == a.String()
    ensures a.resource == kind + "/" + path + "/" + last ==> StripPath(a.String()) == a.(resource := kind + "/" + last).String()
  {
    ParseOfString(a);
    if a.resource == kind + "/" + last {
      SplitHead(kind, '/', last);
      assert Segments(a) == [kind, last];
    } else if a.resource == kind + "/" + path + "/" + last {
      assert a.resource == kind + "/" + (path + "/" + last);
      SplitHead(kind, '/', path + "/" + last);
      SplitLast(path, '/', last);
    }
  }

  /* ---------- StripPath and case folding ---------- */

  /** `StripPath` on parsed ARNs. */
  function Stripped(a: ARN): ARN {
    var parts := Segments(a);
    if |parts| < 2 then a else a.(resource := parts[0] + "/" + Last(parts))
  }

  lemma StripPathParses(arn: string)
    requires Parse(arn).Ok?
    ensures StripPath(arn) == Stripped(Parse(arn).value).String()
    ensures Parse(StripPath(arn)) == Ok(Stripped(Parse(arn).value))
  {
    StringOfParse(arn);
    ParseOfString(Stripped(Parse(arn).value));
  }

  lemma StrippedIdempotent(a: ARN)
    ensures Stripped(Stripped(a)) == Stripped(a)
  {
    var parts := Segments(a);
    if |parts| >= 2 {
      JoinSplit(a.resource, '/');
      var two := [parts[0], Last(parts)];
      SplitJoin(two, '/');
      assert two == [parts[0]] + [Last(parts)];
      JoinCons(parts[0], [Last(parts)], '/');
    }
  }

  /** `StripPath` is idempotent on every input. */
  lemma StripPathIdempotent(arn: string)
    ensures StripPath(StripPath(arn)) == StripPath(arn)
  {
    if Parse(arn).Ok? {
      StripPathParses(arn);
      StripPathParses(StripPath(arn));
      StrippedIdempotent(Parse(arn).value);
    }
  }

  lemma FoldString(a: ARN)
    ensures Lower(a.String()) == a.Folded().String()
  {
    var parts := ["arn", a.partition, a.service, a.region, a.account, a.resource];
    LowerJoin(parts, ':');
    assert Lower("arn") == "arn";
    assert LowerAll(parts) == ["arn", Lower(a.partition), Lower(a.service), Lower(a.region), Lower(a.account), Lower(a.resource)];
  }

  lemma ParseFolded(arn: string)
    requires Parse(arn).Ok?
    ensures Parse(Lower(arn)) == Ok(Parse(arn).value.Folded())
  {
    var a := Parse(arn).value;
    StringOfParse(arn);
    FoldString(a);
    LowerContains(a.partition, ':');
    LowerContains(a.service, ':');
    LowerContains(a.region, ':');
    LowerContains(a.account, ':');
    assert |a.Folded().partition| > 0 && |a.Folded().service| > 0 && |a.Folded().resource| > 0;
    ParseOfString(a.Folded());
  }

  lemma StrippedFolded(a: ARN)
    ensures Stripped(a.Folded()) == Stripped(a).Folded()
  {
    var parts := Segments(a);
    SplitLower(a.resource, '/');
    assert Segments(a.Folded()) == LowerAll(parts);
    if |parts| >= 2 {
      LowerConcat(parts[0] + "/", Last(parts));
      LowerConcat(parts[0], "/");
      assert Lower("/") == "/";
    }
  }

  /** Folding commutes with path stripping on every accepted ARN. */
  lemma StripPathFolded(arn: string)
    requires Parse(arn).Ok?
    ensures StripPath(Lower(arn)) == Lower(StripPath(arn))
  {
    var a := Parse(arn).value;
    ParseFolded(arn);
    StripPathParses(arn);
    StripPathParses(Lower(arn));
    StrippedFolded(a);
    FoldString(Stripped(a));
  }
}
