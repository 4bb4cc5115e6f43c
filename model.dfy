/**
 * The shared records of roleman (src/model.rs): accounts, roles, the
 * flattened role choices shown to the user, the SSO API payloads, and the
 * environment variables exported for a chosen role.
 */
module Model {
  import opened Wrappers
  import opened Strings

  /** A cached SSO access token as read from the AWS CLI cache. */
  datatype CacheEntry = CacheEntry(accessToken: string, expiresAt: string, region: string)

  datatype Account = Account(id: string, name: string)

  datatype Role = Role(name: string)

  /** One (account, role) pair the user can pick. */
  datatype RoleChoice = RoleChoice(accountId: string, accountName: string, roleName: string)

  /** Temporary role credentials; `expiration` is in epoch milliseconds. */
  datatype AwsRoleCredentials = AwsRoleCredentials(
    accessKeyId: string, secretAccessKey: string, sessionToken: string, expiration: nat)

  datatype AwsRegisterClient = AwsRegisterClient(clientId: string, clientSecret: string, clientSecretExpiresAt: int)

  datatype AwsStartDeviceAuthorization = AwsStartDeviceAuthorization(
    deviceCode: string, userCode: string, verificationUriComplete: string, expiresIn: nat, interval: nat)

  datatype AwsCreateToken = AwsCreateToken(accessToken: string, expiresIn: nat)

  /** The variables a shell hook exports for the chosen role. */
  datatype EnvVars = EnvVars(
    accessKeyId: string, secretAccessKey: string, sessionToken: string, expirationMs: nat,
    region: string, profileName: string, configFile: Option<string>)

  /** `RoleChoice::new`: a choice carries the account's id and name and the role's name, unchanged. */
  function NewChoice(account: Account, role: Role): (c: RoleChoice)
    ensures c.accountId == account.id && c.accountName == account.name && c.roleName == role.name
  {
    RoleChoice(account.id, account.name, role.name)
  }

  const EmDash: string := " \U{2014} "

  /** The label shown in the picker: `name (id) — role`. */
  function Label(c: RoleChoice): (r: string)
    ensures StartsWith(r, c.accountName + " (" + c.accountId + ")")
    ensures EndsWith(r, EmDash + c.roleName)
  {
    c.accountName + " (" + c.accountId + ")" + EmDash + c.roleName
  }

  /** Within one account, labels tell roles apart: equal labels mean equal role names. */
  lemma {:induction false} LabelInjectiveWithinAccount(c: RoleChoice, d: RoleChoice)
    requires c.accountId == d.accountId && c.accountName == d.accountName
    ensures Label(c) == Label(d) <==> c == d
  {
    var p := c.accountName + " (" + c.accountId + ")" + EmDash;
    assert Label(c) == p + c.roleName && Label(d) == p + d.roleName;
    if Label(c) == Label(d) {
      assert c.roleName == Label(c)[|p|..];
      assert d.roleName == Label(d)[|p|..];
    }
  }

  /** `EnvVars::from_role_credentials`: copies the credentials; no config file yet. */
  function FromRoleCredentials(creds: AwsRoleCredentials, profileName: string, region: string): (e: EnvVars)
    ensures e.accessKeyId == creds.accessKeyId && e.secretAccessKey == creds.secretAccessKey
    ensures e.sessionToken == creds.sessionToken && e.expirationMs == creds.expiration
    ensures e.region == region && e.profileName == profileName && e.configFile.None?
  {
    EnvVars(creds.accessKeyId, creds.secretAccessKey, creds.sessionToken, creds.expiration,
            region, profileName, None)
  }

  /**
   * The time crate's representable range, in Unix seconds
   * (-9999-01-01T00:00:00Z through 9999-12-31T23:59:59Z), which bounds
   * every parsed timestamp.
   */
  predicate InTimeRange(t: int)
  {
    -377705116800 <= t <= 253402300799
  }

  /** The last second accepted by the `time` crate's `from_unix_timestamp` (9999-12-31T23:59:59Z). */
  const MaxUnixTimestamp: nat := 253402300799

  /**
   * `format_expiration`: the RFC 3339 rendering of the whole second
   * `expirationMs / 1000`, given by `rfc3339`; the decimal millisecond count
   * when that second is out of range or formatting fails.
   */
  function FormatExpiration(expirationMs: nat, rfc3339: nat -> Option<string>): (r: string)
    ensures expirationMs / 1000 > MaxUnixTimestamp ==> r == NatToString(expirationMs)
    ensures rfc3339(expirationMs / 1000).None? ==> r == NatToString(expirationMs)
    ensures expirationMs / 1000 <= MaxUnixTimestamp && rfc3339(expirationMs / 1000).Some? ==>
              r == rfc3339(expirationMs / 1000).value
  {
    var seconds := expirationMs / 1000;
    if seconds <= MaxUnixTimestamp then
      match rfc3339(seconds)
      case Some(text) => text
      case None => NatToString(expirationMs)
    else NatToString(expirationMs)
  }

  /** Two expirations within the same whole second render alike when that second is formattable. */
  lemma {:induction false} FormatExpirationWholeSeconds(a: nat, b: nat, rfc3339: nat -> Option<string>)
    requires a / 1000 == b / 1000 && a / 1000 <= MaxUnixTimestamp && rfc3339(a / 1000).Some?
    ensures FormatExpiration(a, rfc3339) == FormatExpiration(b, rfc3339)
  {
  }

  /** The exported variable names, in the order they are written. */
  const ExportNames: seq<string> := ["AWS_ACCESS_KEY_ID", "AWS_SECRET_ACCESS_KEY", "AWS_SESSION_TOKEN",
                                     "AWS_CREDENTIAL_EXPIRATION", "AWS_DEFAULT_REGION", "AWS_REGION",
                                     "AWS_PROFILE", "AWS_CONFIG_FILE"]

  /** No variable name holds an '=' or a newline. */
  lemma ExportNamesClean()
    ensures forall k :: 0 <= k < |ExportNames| ==> '=' !in ExportNames[k] && '\n' !in ExportNames[k]
  {
  }

  /** `to_export_lines`: one `export NAME=value` line per variable, joined by a newline. */
  function ToExportLines(e: EnvVars, rfc3339: nat -> Option<string>): string
  {
    Join(Render(ExportAssignments(e, rfc3339)), "\n")
  }

  /**
   * The variables the export text is meant to set, in order: seven fixed
   * ones, both region variables carrying the same region, and the config
   * file as an eighth exactly when there is one.
   */
  function ExportAssignments(e: EnvVars, rfc3339: nat -> Option<string>): (a: seq<(string, string)>)
    ensures |a| == 7 + (if e.configFile.Some? then 1 else 0)
    ensures a[4].1 == a[5].1 == e.region
    ensures forall k :: 0 <= k < |a| ==> a[k].0 == ExportNames[k]
  {
    var n := ExportNames;
    [(n[0], e.accessKeyId),
     (n[1], e.secretAccessKey),
     (n[2], e.sessionToken),
     (n[3], FormatExpiration(e.expirationMs, rfc3339)),
     (n[4], e.region),
     (n[5], e.region),
     (n[6], e.profileName)]
    + (match e.configFile case Some(path) => [(n[7], path)] case None => [])
  }

  /** Reads one `export NAME=value` line back: the name runs to the first '='. */
  function ParseExportLine(line: string): Option<(string, string)>
  {
    if StartsWith(line, "export ") then
      var rest := line[7..];
      match FindChar(rest, '=')
      case Some(i) => Some((rest[..i], rest[i + 1..]))
      case None => None
    else None
  }

  function ParseExportLines(text: string): seq<Option<(string, string)>>
  {
    var lines := Split(text, '\n');
    seq(|lines|, k requires 0 <= k < |lines| => ParseExportLine(lines[k]))
  }

  function Somes<T>(s: seq<T>): (r: seq<Option<T>>)
    ensures |r| == |s| && forall k :: 0 <= k < |s| ==> r[k] == Some(s[k])
  {
    seq(|s|, k requires 0 <= k < |s| => Some(s[k]))
  }

  predicate NoNewlines(e: EnvVars, rfc3339: nat -> Option<string>)
  {
    '\n' !in e.accessKeyId && '\n' !in e.secretAccessKey && '\n' !in e.sessionToken
    && '\n' !in FormatExpiration(e.expirationMs, rfc3339) && '\n' !in e.region
    && '\n' !in e.profileName && (e.configFile.Some? ==> '\n' !in e.configFile.value)
  }

  lemma {:induction false} ParseExportLineOf(name: string, value: string)
    requires '=' !in name
    ensures ParseExportLine("export " + name + "=" + value) == Some((name, value))
  {
    var line := "export " + name + "=" + value;
    assert line[7..] == name + ['='] + value;
    FindCharAt(name, '=', value);
    assert (name + ['='] + value)[..|name|] == name;
    assert (name + ['='] + value)[|name| + 1..] == value;
  }

  /** The `export NAME=value` lines for a list of assignments. */
  function Render(a: seq<(string, string)>): (lines: seq<string>)
    ensures |lines| == |a|
  {
    seq(|a|, k requires 0 <= k < |a| => "export " + a[k].0 + "=" + a[k].1)
  }

  /** Rendered assignments read back as themselves when no part holds a newline and no name an '='. */
  lemma {:induction false} ParseRendered(a: seq<(string, string)>)
    requires |a| >= 1
    requires forall k :: 0 <= k < |a| ==> '=' !in a[k].0 && '\n' !in a[k].0 && '\n' !in a[k].1
    ensures ParseExportLines(Join(Render(a), "\n")) == Somes(a)
  {
    var lines := Render(a);
    forall k | 0 <= k < |a| ensures '\n' !in lines[k] {
      assert lines[k] == "export " + a[k].0 + "=" + a[k].1;
    }
    SplitJoin(lines, '\n');
    forall k | 0 <= k < |a| ensures ParseExportLine(lines[k]) == Some(a[k]) {
      ParseExportLineOf(a[k].0, a[k].1);
    }
  }

  /**
   * The export text decodes, line by line, to exactly the intended
   * assignments: the lines are in the fixed order, nothing trails the last
   * one, and the config-file line is present exactly when a path is set.
   */
  lemma {:induction false} ExportLinesRoundTrip(e: EnvVars, rfc3339: nat -> Option<string>)
    requires NoNewlines(e, rfc3339)
    ensures ParseExportLines(ToExportLines(e, rfc3339)) == Somes(ExportAssignments(e, rfc3339))
  {
    var a := ExportAssignments(e, rfc3339);
    ExportNamesClean();
    forall k | 0 <= k < |a| ensures '\n' !in a[k].1 {
    }
    ParseRendered(a);
  }
}
