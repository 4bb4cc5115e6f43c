/**
 * The mock AWS SSO server's request handling (src/mock_server.rs): which
 * operation a request asks for, from its `x-amz-target` header, its JSON
 * payload's keys, its query parameters or its path; the query parsing; and
 * the reply each operation builds from the fixed accounts and roles.
 *
 * The JSON decoder is a parameter; the clock is given as two readings
 * (seconds and milliseconds). The replies keep the parts that vary and
 * leave the fixed fixture strings out.
 */
module MockServer {
  import opened Wrappers
  import opened Strings

  // ---------------------------------------------------------------------------
  // JSON values and requests

  datatype Json =
    | JNull
    | JBool(b: bool)
    | JNumber(n: int)
    | JString(s: string)
    | JArray(items: seq<Json>)
    | JObject(fields: map<string, Json>)

  /** `Value::get(key)`: the field of an object; nothing for any other value. */
  function Get(payload: Json, key: string): (r: Option<Json>)
    ensures r.Some? <==> payload.JObject? && key in payload.fields
    ensures r.Some? ==> r.value == payload.fields[key]
  {
    if payload.JObject? && key in payload.fields then Some(payload.fields[key]) else None
  }

  predicate Has(payload: Json, key: string)
  {
    Get(payload, key).Some?
  }

  /** `get(key).and_then(as_str)`: a field that is a string, else nothing. */
  function StringField(payload: Json, key: string): (r: Option<string>)
    ensures r.Some? <==> Has(payload, key) && payload.fields[key].JString?
    ensures r.Some? ==> r.value == payload.fields[key].s
  {
    match Get(payload, key)
    case Some(JString(s)) => Some(s)
    case _ => None
  }

  /** A request's URI: its path and its query, when it has one. */
  datatype Uri = Uri(path: string, query: Option<string>)

  /** The outcome of decoding a body: a JSON value or the decoder's message. */
  datatype Parsed = Parsed(value: Json) | Unparsable(message: string)

  /** `parse_json`: an empty body is the empty object; any other goes to the decoder. */
  function ParseJson(body: string, decode: string -> Parsed): (r: Parsed)
    ensures body == [] ==> r == Parsed(JObject(map[]))
    ensures body != [] ==> r == decode(body)
  {
    if body == [] then Parsed(JObject(map[])) else decode(body)
  }

  /** An empty body has no keys at all, so no payload key decides its route. */
  lemma {:induction false} EmptyBodyHasNoKeys(decode: string -> Parsed, key: string)
    ensures ParseJson([], decode).Parsed? && !Has(ParseJson([], decode).value, key)
  {
  }

  // ---------------------------------------------------------------------------
  // Query strings

  /** A pair's key, when the pair has an '=': the text before the first one. */
  function PairKey(pair: string): (r: Option<string>)
    ensures r.Some? <==> '=' in pair
    ensures r.Some? ==> '=' !in r.value && |r.value| < |pair| && pair[|r.value|] == '='
  {
    match SplitOnce(pair, "=")
    case None => NoEqualSign(pair); None
    case Some((key, _)) => KeyBeforeEqualSign(pair, key, SplitOnce(pair, "=").value.1); Some(key)
  }

  /** A pair's value, when the pair has an '=': the raw text after the first one. */
  function PairValue(pair: string): (r: Option<string>)
    ensures r.Some? <==> PairKey(pair).Some?
    ensures r.Some? ==> pair == PairKey(pair).value + "=" + r.value
  {
    match SplitOnce(pair, "=")
    case None => NoEqualSign(pair); None
    case Some((_, value)) => Some(value)
  }

  lemma {:induction false} NoEqualSign(pair: string)
    requires !Contains(pair, "=")
    ensures '=' !in pair
  {
    if '=' in pair {
      var i :| 0 <= i < |pair| && pair[i] == '=';
      assert OccursAt(pair, "=", i);
    }
  }

  lemma {:induction false} KeyBeforeEqualSign(pair: string, key: string, value: string)
    requires pair == key + "=" + value
    requires forall j :: 0 <= j < |key| ==> !OccursAt(pair, "=", j)
    ensures '=' !in key
  {
    if '=' in key {
      var j :| 0 <= j < |key| && key[j] == '=';
      assert pair[j..j + 1] == "=";
      assert OccursAt(pair, "=", j);
    }
  }

  /** A pair with an '=' whose key is one of `keys`. */
  predicate Matches(pair: string, keys: seq<string>)
  {
    PairKey(pair).Some? && PairKey(pair).value in keys
  }

  /** `has_query_param`: some '&'-separated pair with an '=' has one of the keys. */
  predicate HasQueryParam(query: string, keys: seq<string>)
  {
    exists k :: 0 <= k < |Split(query, '&')| && Matches(Split(query, '&')[k], keys)
  }

  /** The index of the first pair from `i` on that `wanted` accepts, scanning in order. */
  function FirstIndexFrom(pairs: seq<string>, wanted: string -> bool, i: nat): (r: Option<nat>)
    requires i <= |pairs|
    ensures r.None? ==> forall j :: i <= j < |pairs| ==> !wanted(pairs[j])
    ensures r.Some? ==> i <= r.value < |pairs| && wanted(pairs[r.value])
    ensures r.Some? ==> forall m :: i <= m < r.value ==> !wanted(pairs[m])
    decreases |pairs| - i
  {
    if i == |pairs| then None
    else if wanted(pairs[i]) then Some(i)
    else FirstIndexFrom(pairs, wanted, i + 1)
  }

  /**
   * `query_value`: the raw value of the first pair, in order, whose key is
   * wanted; nothing without a query or without such a pair.
   */
  function QueryValue(query: Option<string>, keys: seq<string>): (r: Option<string>)
    ensures query.None? ==> r.None?
    ensures query.Some? ==> (r.Some? <==> HasQueryParam(query.value, keys))
    ensures r.Some? ==>
      var pairs := Split(query.value, '&');
      var j := FirstIndexFrom(pairs, p => Matches(p, keys), 0).value;
      Matches(pairs[j], keys) && PairValue(pairs[j]) == r && forall m :: 0 <= m < j ==> !Matches(pairs[m], keys)
  {
    match query
    case None => None
    case Some(q) =>
      var pairs := Split(q, '&');
      match FirstIndexFrom(pairs, p => Matches(p, keys), 0)
      case None => None
      case Some(j) => PairValue(pairs[j])
  }

  /** A leading pair without an '=' is passed over, even when its text is a key. */
  lemma {:induction false} BarePairIgnored(bare: string, rest: string, keys: seq<string>)
    requires '&' !in bare && '=' !in bare
    ensures HasQueryParam(bare + "&" + rest, keys) <==> HasQueryParam(rest, keys)
  {
    SplitCons(bare, '&', rest);
    var pairs := Split(bare + "&" + rest, '&');
    var tail := Split(rest, '&');
    assert pairs == [bare] + tail;
    assert !Matches(pairs[0], keys);
    if HasQueryParam(rest, keys) {
      var k :| 0 <= k < |tail| && Matches(tail[k], keys);
      assert pairs[k + 1] == tail[k];
    }
    if HasQueryParam(bare + "&" + rest, keys) {
      var k :| 0 <= k < |pairs| && Matches(pairs[k], keys);
      assert k >= 1 && pairs[k] == tail[k - 1];
    }
  }

  /** The value of a query is unchanged by a leading pair without an '='. */
  lemma {:induction false} BarePairValueIgnored(bare: string, rest: string, keys: seq<string>)
    requires '&' !in bare && '=' !in bare
    ensures QueryValue(Some(bare + "&" + rest), keys) == QueryValue(Some(rest), keys)
  {
    SplitCons(bare, '&', rest);
    var pairs := Split(bare + "&" + rest, '&');
    var tail := Split(rest, '&');
    var wanted := p => Matches(p, keys);
    assert pairs == [bare] + tail;
    assert !wanted(pairs[0]);
    FirstIndexShift(pairs, tail, wanted, 0);
    assert FirstIndexFrom(pairs, wanted, 0) == FirstIndexFrom(pairs, wanted, 1);
    match FirstIndexFrom(tail, wanted, 0)
    case None =>
    case Some(j) => assert pairs[j + 1] == tail[j];
  }

  /** Scanning past a first pair finds the same pair, one place further on. */
  lemma {:induction false} FirstIndexShift(pairs: seq<string>, tail: seq<string>, wanted: string -> bool, i: nat)
    requires |pairs| == |tail| + 1 && pairs[1..] == tail && i <= |tail|
    ensures FirstIndexFrom(pairs, wanted, i + 1)
         == (match FirstIndexFrom(tail, wanted, i) case Some(j) => Some(j + 1) case None => None)
    decreases |tail| - i
  {
    if i < |tail| {
      assert pairs[i + 1] == tail[i];
      FirstIndexShift(pairs, tail, wanted, i + 1);
    }
  }

  /** A query of one pair `key=value` with a wanted key gives back the raw value. */
  lemma {:induction false} SinglePairValue(key: string, value: string, keys: seq<string>)
    requires key in keys && '=' !in key && '&' !in key && '&' !in value
    ensures QueryValue(Some(key + "=" + value), keys) == Some(value)
  {
    var pair := key + "=" + value;
    assert '&' !in pair by {
      forall i | 0 <= i < |pair| ensures pair[i] != '&' {
        if i < |key| { assert pair[i] == key[i]; }
        else if i > |key| { assert pair[i] == value[i - |key| - 1]; }
      }
    }
    assert FindChar(pair, '&').None?;
    assert Split(pair, '&') == [pair];
    KeyOfPair(key, value);
  }

  /** The key of `key=value` is `key` when `key` has no '='. */
  lemma {:induction false} KeyOfPair(key: string, value: string)
    requires '=' !in key
    ensures PairKey(key + "=" + value) == Some(key) && PairValue(key + "=" + value) == Some(value)
  {
    var pair := key + "=" + value;
    assert pair[|key|] == '=';
    var k := PairKey(pair).value;
    assert pair == k + "=" + PairValue(pair).value;
    assert |k| == |key|;
    assert k == pair[..|k|] == key;
    assert PairValue(pair).value == pair[|k| + 1..] == value;
  }

  // ---------------------------------------------------------------------------
  // Operations and routing

  /** The six operations the server answers. */
  datatype Operation =
    | RegisterClient
    | StartDeviceAuthorization
    | CreateToken
    | ListAccounts
    | ListAccountRoles
    | GetRoleCredentials

  /** The target name `resolve_target` gives for each operation. */
  function TargetName(op: Operation): string
  {
    match op
    case RegisterClient => "SSOOIDCService.RegisterClient"
    case StartDeviceAuthorization => "SSOOIDCService.StartDeviceAuthorization"
    case CreateToken => "SSOOIDCService.CreateToken"
    case ListAccounts => "AWSSSOService.ListAccounts"
    case ListAccountRoles => "AWSSSOService.ListAccountRoles"
    case GetRoleCredentials => "AWSSSOService.GetRoleCredentials"
  }

  /**
   * The operation `handle_root` serves for a resolved target: the OIDC names
   * with either service prefix, the SSO names with theirs, else none.
   */
  function OperationOf(target: string): (r: Option<Operation>)
  {
    match target
    case "SSOOIDCService.RegisterClient" => Some(RegisterClient)
    case "AWSSSOOIDCService.RegisterClient" => Some(RegisterClient)
    case "SSOOIDCService.StartDeviceAuthorization" => Some(StartDeviceAuthorization)
    case "AWSSSOOIDCService.StartDeviceAuthorization" => Some(StartDeviceAuthorization)
    case "SSOOIDCService.CreateToken" => Some(CreateToken)
    case "AWSSSOOIDCService.CreateToken" => Some(CreateToken)
    case "AWSSSOService.ListAccounts" => Some(ListAccounts)
    case "AWSSSOService.ListAccountRoles" => Some(ListAccountRoles)
    case "AWSSSOService.GetRoleCredentials" => Some(GetRoleCredentials)
    case _ => None
  }

  /** Every name `resolve_target` makes up is served, as the operation it names. */
  lemma {:induction false} TargetNameServed(op: Operation)
    ensures OperationOf(TargetName(op)) == Some(op)
  {
    match op
    case RegisterClient => ServedRegisterClient();
    case StartDeviceAuthorization => ServedStartDeviceAuthorization();
    case CreateToken => ServedCreateToken();
    case ListAccounts => ServedListAccounts();
    case ListAccountRoles => ServedListAccountRoles();
    case GetRoleCredentials => ServedGetRoleCredentials();
  }

  lemma {:induction false} ServedRegisterClient()
    ensures OperationOf(TargetName(RegisterClient)) == Some(RegisterClient)
  {
  }

  lemma {:induction false} ServedStartDeviceAuthorization()
    ensures OperationOf(TargetName(StartDeviceAuthorization)) == Some(StartDeviceAuthorization)
  {
  }

  lemma {:induction false} ServedCreateToken()
    ensures OperationOf(TargetName(CreateToken)) == Some(CreateToken)
  {
  }

  lemma {:induction false} ServedListAccounts()
    ensures OperationOf(TargetName(ListAccounts)) == Some(ListAccounts)
  {
  }

  lemma {:induction false} ServedListAccountRoles()
    ensures OperationOf(TargetName(ListAccountRoles)) == Some(ListAccountRoles)
  {
  }

  lemma {:induction false} ServedGetRoleCredentials()
    ensures OperationOf(TargetName(GetRoleCredentials)) == Some(GetRoleCredentials)
  {
  }

  /**
   * The fallback chain of `resolve_target` below the header: the payload's
   * keys in order, then the query's keys, then words in the path, then
   * ListAccounts.
   */
  function ResolveOperation(payload: Json, uri: Uri): (op: Operation)
  {
    if Has(payload, "clientName") || Has(payload, "clientType") then RegisterClient
    else if Has(payload, "startUrl") then StartDeviceAuthorization
    else if Has(payload, "grantType") || Has(payload, "grant_type") then CreateToken
    else if Has(payload, "accountId") && Has(payload, "roleName") then GetRoleCredentials
    else if Has(payload, "accountId") then ListAccountRoles
    else if Has(payload, "accessToken") then ListAccounts
    else if uri.query.Some? && HasQueryParam(uri.query.value, ["role_name", "roleName"]) then GetRoleCredentials
    else if uri.query.Some? && HasQueryParam(uri.query.value, ["account_id", "accountId"]) then ListAccountRoles
    else if Contains(uri.path, "credential") then GetRoleCredentials
    else if Contains(uri.path, "role") then ListAccountRoles
    else if Contains(uri.path, "account") then ListAccounts
    else ListAccounts
  }

  /** The payload keys that decide a route on their own. */
  predicate PayloadDecides(payload: Json)
  {
    Has(payload, "clientName") || Has(payload, "clientType") || Has(payload, "startUrl") ||
    Has(payload, "grantType") || Has(payload, "grant_type") || Has(payload, "accountId") ||
    Has(payload, "accessToken")
  }

  /** `resolve_target`: a non-empty header as it is, else the fallback chain's name. */
  function ResolveTarget(target: string, payload: Json, uri: Uri): (r: string)
    ensures target != "" ==> r == target
    ensures target == "" ==> r == TargetName(ResolveOperation(payload, uri)) && OperationOf(r).Some?
  {
    TargetNameServed(ResolveOperation(payload, uri));
    if target != "" then target else TargetName(ResolveOperation(payload, uri))
  }

  /** A payload key that decides the route makes the query and the path irrelevant. */
  lemma {:induction false} PayloadBeforeUri(payload: Json, uri: Uri, other: Uri)
    requires PayloadDecides(payload)
    ensures ResolveTarget("", payload, uri) == ResolveTarget("", payload, other)
  {
  }

  /** Registration keys come first: they win over every other key in the same payload. */
  lemma {:induction false} ClientKeysFirst(payload: Json, uri: Uri)
    requires Has(payload, "clientName") || Has(payload, "clientType")
    ensures ResolveOperation(payload, uri) == RegisterClient
  {
  }

  /** An account id alone lists its roles; with a role name it fetches credentials. */
  lemma {:induction false} AccountIdRoutes(payload: Json, uri: Uri)
    requires Has(payload, "accountId")
    requires !Has(payload, "clientName") && !Has(payload, "clientType") && !Has(payload, "startUrl")
    requires !Has(payload, "grantType") && !Has(payload, "grant_type")
    ensures ResolveOperation(payload, uri) == (if Has(payload, "roleName") then GetRoleCredentials else ListAccountRoles)
  {
  }

  /** A query's role name wins over its account id and over the path. */
  lemma {:induction false} QueryRoleNameFirst(payload: Json, uri: Uri)
    requires !PayloadDecides(payload)
    requires uri.query.Some? && HasQueryParam(uri.query.value, ["role_name", "roleName"])
    ensures ResolveOperation(payload, uri) == GetRoleCredentials
  {
  }

  /** With nothing in the payload, the query or the path, the route is ListAccounts. */
  lemma {:induction false} DefaultListAccounts(payload: Json, path: string)
    requires !PayloadDecides(payload)
    requires !Contains(path, "credential") && !Contains(path, "role")
    ensures ResolveTarget("", payload, Uri(path, None)) == "AWSSSOService.ListAccounts"
  {
  }

  // ---------------------------------------------------------------------------
  // The fixture and the replies

  /** `MockState`: the accounts, as (id, name), and each account's role names. */
  datatype MockState = MockState(accounts: seq<(string, string)>, roles: map<string, seq<string>>)

  /** `default_state`: three accounts, with two, two and one roles. */
  const DefaultState: MockState :=
    MockState(
      [("111111111111", "Mock Platform"), ("222222222222", "Mock Data"), ("333333333333", "Mock Sandbox")],
      map["111111111111" := ["Admin", "ReadOnly"], "222222222222" := ["Engineer", "Billing"],
          "333333333333" := ["Sandbox"]])

  /** The roles of an account: those in the fixture, and none for an account it does not know. */
  function RolesFor(state: MockState, accountId: string): (roles: seq<string>)
    ensures accountId !in state.roles ==> roles == []
    ensures accountId in state.roles ==> roles == state.roles[accountId]
  {
    if accountId in state.roles then state.roles[accountId] else []
  }

  /** Every account in the default fixture has at least one role. */
  lemma {:induction false} DefaultAccountsHaveRoles(k: nat)
    requires k < |DefaultState.accounts|
    ensures DefaultState.accounts[k].0 in DefaultState.roles
    ensures |RolesFor(DefaultState, DefaultState.accounts[k].0)| >= 1
  {
  }

  /** The id of the account a request is about: the payload's string, else the query's, else empty. */
  function AccountIdOf(payload: Json, uri: Uri): (id: string)
    ensures StringField(payload, "accountId").Some? ==> id == StringField(payload, "accountId").value
    ensures StringField(payload, "accountId").None? ==>
      id == (match QueryValue(uri.query, ["account_id", "accountId"]) case Some(v) => v case None => "")
  {
    match StringField(payload, "accountId")
    case Some(id) => id
    case None =>
      match QueryValue(uri.query, ["account_id", "accountId"])
      case Some(v) => v
      case None => ""
  }

  /** The role name a credentials request is about, found the same way. */
  function RoleNameOf(payload: Json, uri: Uri): (name: string)
    ensures StringField(payload, "roleName").Some? ==> name == StringField(payload, "roleName").value
    ensures StringField(payload, "roleName").None? ==>
      name == (match QueryValue(uri.query, ["role_name", "roleName"]) case Some(v) => v case None => "")
  {
    match StringField(payload, "roleName")
    case Some(name) => name
    case None =>
      match QueryValue(uri.query, ["role_name", "roleName"])
      case Some(v) => v
      case None => ""
  }

  /** A reply, with the parts of its JSON that depend on the request, the state or the clock. */
  datatype Reply =
    | ClientRegistered(secretExpiresAt: int)
    | DeviceAuthorizationStarted
    | TokenCreated
    | AccountList(accounts: seq<(string, string)>)
    | RoleList(accountId: string, roleNames: seq<string>)
    | RoleCredentials(accountId: string, roleName: string, expiration: int)
    | BadRequest(message: string)

  /**
   * `handle_root`: decode the body (a failure is a 400 with the decoder's
   * message), resolve the target and answer its operation; a target no
   * operation has is a 400 naming the header's target.
   */
  function HandleRoot(state: MockState, target: string, body: string, uri: Uri, decode: string -> Parsed,
                      nowSeconds: int, nowMillis: int): (reply: Reply)
    ensures ParseJson(body, decode).Unparsable? ==> reply == BadRequest(ParseJson(body, decode).message)
    ensures ParseJson(body, decode).Parsed? ==>
      var payload := ParseJson(body, decode).value;
      var op := OperationOf(ResolveTarget(target, payload, uri));
      (op.None? ==> reply == BadRequest("unknown target: " + target)) &&
      (op == Some(RegisterClient) ==> reply == ClientRegistered(nowSeconds + 86400)) &&
      (op == Some(StartDeviceAuthorization) ==> reply == DeviceAuthorizationStarted) &&
      (op == Some(CreateToken) ==> reply == TokenCreated) &&
      (op == Some(ListAccounts) ==> reply == AccountList(state.accounts)) &&
      (op == Some(ListAccountRoles) ==>
        reply == RoleList(AccountIdOf(payload, uri), RolesFor(state, AccountIdOf(payload, uri)))) &&
      (op == Some(GetRoleCredentials) ==>
        reply == RoleCredentials(AccountIdOf(payload, uri), RoleNameOf(payload, uri), nowMillis + 8 * 60 * 60 * 1000))
  {
    match ParseJson(body, decode)
    case Unparsable(message) => BadRequest(message)
    case Parsed(payload) =>
      match OperationOf(ResolveTarget(target, payload, uri))
      case None => BadRequest("unknown target: " + target)
      case Some(op) =>
        match op
        case RegisterClient => ClientRegistered(nowSeconds + 86400)
        case StartDeviceAuthorization => DeviceAuthorizationStarted
        case CreateToken => TokenCreated
        case ListAccounts => AccountList(state.accounts)
        case ListAccountRoles =>
          var id := AccountIdOf(payload, uri);
          RoleList(id, RolesFor(state, id))
        case GetRoleCredentials => RoleCredentials(AccountIdOf(payload, uri), RoleNameOf(payload, uri), nowMillis + 28800000)
  }

  /** A request without a header target always names a served operation, so it is never "unknown target". */
  lemma {:induction false} EmptyTargetNeverUnknown(state: MockState, body: string, uri: Uri, decode: string -> Parsed,
                                                   nowSeconds: int, nowMillis: int)
    requires ParseJson(body, decode).Parsed?
    ensures !HandleRoot(state, "", body, uri, decode, nowSeconds, nowMillis).BadRequest?
  {
    var payload := ParseJson(body, decode).value;
    TargetNameServed(ResolveOperation(payload, uri));
  }

  /** An account the fixture does not know has an empty role list, not an error. */
  lemma {:induction false} UnknownAccountNoRoles(state: MockState, target: string, body: string, uri: Uri,
                                                 decode: string -> Parsed, nowSeconds: int, nowMillis: int)
    requires ParseJson(body, decode).Parsed?
    requires OperationOf(ResolveTarget(target, ParseJson(body, decode).value, uri)) == Some(ListAccountRoles)
    requires AccountIdOf(ParseJson(body, decode).value, uri) !in state.roles
    ensures HandleRoot(state, target, body, uri, decode, nowSeconds, nowMillis)
         == RoleList(AccountIdOf(ParseJson(body, decode).value, uri), [])
  {
  }
}
