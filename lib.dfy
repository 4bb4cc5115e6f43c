/**
 * The application flow of src/lib.rs: obtaining an SSO token (cached or by
 * device authorization), flattening every account's roles into picker
 * choices, hiding the configured roles, the start-URL / region / refresh
 * precedence, and the refresh loop that waits for a visible role.
 *
 * The token-listing calls are supplied functions of the token, the region
 * and (for roles) the account id; the k-th fetch of `App::run` is a
 * supplied outcome.
 */
module Lib {
  import opened Wrappers
  import opened Errors
  import opened Seqs
  import opened Model
  import opened AwsConfig

  /**
   * A role the user chose to hide. The record is used by src/lib.rs but is
   * not declared in the shown revision of src/config.rs; it holds the two
   * fields the matching compares.
   */
  datatype HiddenRole = HiddenRole(accountId: string, roleName: string)

  /** `HiddenRole::matches`: the same account id and role name; the account name does not matter. */
  predicate Matches(h: HiddenRole, c: RoleChoice)
  {
    h.accountId == c.accountId && h.roleName == c.roleName
  }

  predicate IsHidden(hidden: seq<HiddenRole>, c: RoleChoice)
  {
    exists k :: 0 <= k < |hidden| && Matches(hidden[k], c)
  }

  function Visible(hidden: seq<HiddenRole>): RoleChoice -> bool
  {
    (c: RoleChoice) => !IsHidden(hidden, c)
  }

  /** `filter_hidden`: the choices no hidden entry matches, in their order. */
  function FilterHidden(choices: seq<RoleChoice>, hidden: seq<HiddenRole>): (r: seq<RoleChoice>)
    ensures forall c :: c in r <==> c in choices && !IsHidden(hidden, c)
  {
    Filter(choices, Visible(hidden))
  }

  /** Filtering works piecewise, so the kept choices stay in their input order. */
  lemma {:induction false} FilterHiddenAppend(a: seq<RoleChoice>, b: seq<RoleChoice>, hidden: seq<HiddenRole>)
    ensures FilterHidden(a + b, hidden) == FilterHidden(a, hidden) + FilterHidden(b, hidden)
  {
    FilterAppend(a, b, Visible(hidden));
  }

  /** With nothing hidden every choice is kept, in place. */
  lemma {:induction false} NothingHidden(choices: seq<RoleChoice>)
    ensures FilterHidden(choices, []) == choices
  {
    FilterAll(choices, Visible([]));
  }

  /** Hiding (1234, Admin) out of Admin and ReadOnly of account 1234 leaves ReadOnly alone. */
  lemma {:induction false} FiltersHiddenRoles()
    ensures
      var account := Account("1234", "Main");
      var choices := [NewChoice(account, Role("Admin")), NewChoice(account, Role("ReadOnly"))];
      var visible := FilterHidden(choices, [HiddenRole("1234", "Admin")]);
      |visible| == 1 && visible[0].roleName == "ReadOnly"
  {
    var account := Account("1234", "Main");
    var admin := NewChoice(account, Role("Admin"));
    var readOnly := NewChoice(account, Role("ReadOnly"));
    var hidden := [HiddenRole("1234", "Admin")];
    var p := Visible(hidden);
    assert !p(admin) by {
      assert Matches(hidden[0], admin);
    }
    assert p(readOnly) by {
      assert !Matches(hidden[0], readOnly) by {
        assert readOnly.roleName[0] == 'R';
      }
    }
    assert [admin, readOnly][1..] == [readOnly];
    assert Filter([readOnly], p) == [readOnly] + Filter([readOnly][1..], p);
  }

  /**
   * `cache_token`: the cached token when loading it succeeded (`loaded` is
   * the outcome of `load_valid_cache`); otherwise a region is required and
   * the token comes from device authorization (`authorize(region)` is its
   * outcome).
   */
  function CacheToken(loaded: Result<CacheEntry>, ssoRegion: Option<string>,
                      authorize: string -> Result<CacheEntry>): (r: Result<CacheEntry>)
    ensures loaded.Ok? ==> r == loaded
    ensures loaded.Err? && ssoRegion.None? ==> r == Err(MissingRegion)
    ensures loaded.Err? && ssoRegion.Some? ==> r == authorize(ssoRegion.value)
  {
    match loaded
    case Ok(_) => loaded
    case Err(_) =>
      match ssoRegion
      case None => Err(MissingRegion)
      case Some(region) => authorize(region)
  }

  /** A usable cached token is used whatever the region and whatever authorization would do. */
  lemma {:induction false} CachedTokenNeedsNoRegion(entry: CacheEntry, r1: Option<string>, r2: Option<string>,
                                                     a1: string -> Result<CacheEntry>, a2: string -> Result<CacheEntry>)
    ensures CacheToken(Ok(entry), r1, a1) == CacheToken(Ok(entry), r2, a2) == Ok(entry)
  {
  }

  /**
   * Without a usable cached token the outcome is an error unless a region
   * is known and authorization succeeds; which load error occurred does not
   * matter.
   */
  lemma {:induction false} CacheTokenOk(loaded: Result<CacheEntry>, ssoRegion: Option<string>,
                                        authorize: string -> Result<CacheEntry>)
    ensures CacheToken(loaded, ssoRegion, authorize).Ok? <==>
              loaded.Ok? || (ssoRegion.Some? && authorize(ssoRegion.value).Ok?)
    ensures loaded.Err? ==> CacheToken(loaded, ssoRegion, authorize) == CacheToken(Err(MissingCache), ssoRegion, authorize)
  {
  }

  /** The choices of one account: one per role, in the roles' order. */
  function ChoicesFor(account: Account, roles: seq<Role>): (r: seq<RoleChoice>)
    ensures |r| == |roles|
    ensures forall j :: 0 <= j < |roles| ==> r[j] == NewChoice(account, roles[j])
  {
    seq(|roles|, j requires 0 <= j < |roles| => NewChoice(account, roles[j]))
  }

  /**
   * The specification of the nested loop of `fetch_choices_with_cache`:
   * each account's choices in account order; the first role listing that
   * fails ends the whole fetch with its error.
   */
  function FetchAll(accounts: seq<Account>, rolesOf: string -> Result<seq<Role>>): Result<seq<RoleChoice>>
    decreases |accounts|
  {
    if accounts == [] then Ok([])
    else
      match rolesOf(accounts[0].id)
      case Err(e) => Err(e)
      case Ok(roles) =>
        match FetchAll(accounts[1..], rolesOf)
        case Err(e) => Err(e)
        case Ok(rest) => Ok(ChoicesFor(accounts[0], roles) + rest)
  }

  /** The roles listed for an account, none when its listing fails. */
  function RoleCount(accounts: seq<Account>, rolesOf: string -> Result<seq<Role>>): nat
    decreases |accounts|
  {
    if accounts == [] then 0
    else
      (match rolesOf(accounts[0].id) case Ok(roles) => |roles| case Err(_) => 0)
      + RoleCount(accounts[1..], rolesOf)
  }

  predicate AllListed(accounts: seq<Account>, rolesOf: string -> Result<seq<Role>>)
  {
    forall i :: 0 <= i < |accounts| ==> rolesOf(accounts[i].id).Ok?
  }

  /** The fetch fails exactly when some account's roles fail to list, with the first failure's error. */
  lemma {:induction false} FetchAllError(accounts: seq<Account>, rolesOf: string -> Result<seq<Role>>)
    ensures FetchAll(accounts, rolesOf).Err? <==> !AllListed(accounts, rolesOf)
    ensures FetchAll(accounts, rolesOf).Err? ==>
      exists i :: 0 <= i < |accounts| && rolesOf(accounts[i].id).Err?
        && FetchAll(accounts, rolesOf).error == rolesOf(accounts[i].id).error
        && AllListed(accounts[..i], rolesOf)
    decreases |accounts|
  {
    if accounts != [] {
      FetchAllError(accounts[1..], rolesOf);
      if rolesOf(accounts[0].id).Err? {
        assert accounts[..0] == [];
      } else if FetchAll(accounts[1..], rolesOf).Err? {
        var i :| 0 <= i < |accounts[1..]| && rolesOf(accounts[1..][i].id).Err?
          && FetchAll(accounts[1..], rolesOf).error == rolesOf(accounts[1..][i].id).error
          && AllListed(accounts[1..][..i], rolesOf);
        assert accounts[1..][i] == accounts[i + 1];
        var pre := accounts[..i + 1];
        assert AllListed(pre, rolesOf) by {
          forall m | 0 <= m < |pre| ensures rolesOf(pre[m].id).Ok? {
            if m > 0 {
              assert pre[m] == accounts[1..][..i][m - 1];
            }
          }
        }
      } else {
        assert AllListed(accounts, rolesOf) by {
          forall m | 0 <= m < |accounts| ensures rolesOf(accounts[m].id).Ok? {
            if m > 0 {
              assert accounts[m] == accounts[1..][m - 1];
            }
          }
        }
      }
    }
  }

  /** When every listing succeeds the result holds one choice per listed role. */
  lemma {:induction false} FetchAllLength(accounts: seq<Account>, rolesOf: string -> Result<seq<Role>>)
    requires AllListed(accounts, rolesOf)
    ensures FetchAll(accounts, rolesOf).Ok?
    ensures |FetchAll(accounts, rolesOf).value| == RoleCount(accounts, rolesOf)
    decreases |accounts|
  {
    if accounts != [] {
      assert AllListed(accounts[1..], rolesOf) by {
        forall m | 0 <= m < |accounts[1..]| ensures rolesOf(accounts[1..][m].id).Ok? {
          assert accounts[1..][m] == accounts[m + 1];
        }
      }
      assert rolesOf(accounts[0].id).Ok?;
      FetchAllLength(accounts[1..], rolesOf);
    }
  }

  /**
   * The layout of the flattened list: role `j` of account `i` sits right
   * after all the roles of the accounts before `i`.
   */
  lemma {:induction false} FetchAllLayout(accounts: seq<Account>, rolesOf: string -> Result<seq<Role>>, i: nat, j: nat)
    requires AllListed(accounts, rolesOf)
    requires i < |accounts| && j < |rolesOf(accounts[i].id).value|
    ensures FetchAll(accounts, rolesOf).Ok?
    ensures RoleCount(accounts[..i], rolesOf) + j < |FetchAll(accounts, rolesOf).value|
    ensures FetchAll(accounts, rolesOf).value[RoleCount(accounts[..i], rolesOf) + j]
         == NewChoice(accounts[i], rolesOf(accounts[i].id).value[j])
    decreases i
  {
    FetchAllLength(accounts, rolesOf);
    var rest := accounts[1..];
    assert AllListed(rest, rolesOf) by {
      forall m | 0 <= m < |rest| ensures rolesOf(rest[m].id).Ok? {
        assert rest[m] == accounts[m + 1];
      }
    }
    FetchAllLength(rest, rolesOf);
    var head := ChoicesFor(accounts[0], rolesOf(accounts[0].id).value);
    assert FetchAll(accounts, rolesOf).value == head + FetchAll(rest, rolesOf).value;
    if i == 0 {
      assert accounts[..0] == [];
    } else {
      assert rest[i - 1] == accounts[i];
      FetchAllLayout(rest, rolesOf, i - 1, j);
      assert accounts[..i][0] == accounts[0] && accounts[..i][1..] == rest[..i - 1];
      assert RoleCount(accounts[..i], rolesOf) == |head| + RoleCount(rest[..i - 1], rolesOf);
    }
  }

  /**
   * The nested loop of `fetch_choices_with_cache` after the token is known:
   * for each account in turn, list its roles and push one choice per role;
   * a failing listing returns its error at once.
   */
  method CollectChoices(accounts: seq<Account>, rolesOf: string -> Result<seq<Role>>)
    returns (r: Result<seq<RoleChoice>>)
    ensures r == FetchAll(accounts, rolesOf)
  {
    var choices: seq<RoleChoice> := [];
    var i := 0;
    assert accounts[0..] == accounts;
    match FetchAll(accounts, rolesOf) {
      case Ok(all) => assert [] + all == all;
      case Err(_) =>
    }
    while i < |accounts|
      invariant 0 <= i <= |accounts|
      invariant FetchAll(accounts, rolesOf) == PrependTo(choices, FetchAll(accounts[i..], rolesOf))
    {
      var account := accounts[i];
      var listed := rolesOf(account.id);
      if listed.Err? {
        FetchAllAt(accounts, rolesOf, i);
        return Err(listed.error);
      }
      var roles := listed.value;
      ghost var before := choices;
      var j := 0;
      while j < |roles|
        invariant 0 <= j <= |roles|
        invariant choices == before + ChoicesFor(account, roles[..j])
      {
        assert ChoicesFor(account, roles[..j + 1]) == ChoicesFor(account, roles[..j]) + [NewChoice(account, roles[j])];
        choices := choices + [NewChoice(account, roles[j])];
        j := j + 1;
      }
      assert roles[..j] == roles;
      FetchAllAt(accounts, rolesOf, i);
      PrependToAppend(before, ChoicesFor(account, roles), FetchAll(accounts[i + 1..], rolesOf));
      i := i + 1;
    }
    assert accounts[i..] == [];
    assert choices + [] == choices;
    r := Ok(choices);
  }

  /** Puts `prefix` in front of a successful result; errors pass through. */
  function PrependTo(prefix: seq<RoleChoice>, r: Result<seq<RoleChoice>>): Result<seq<RoleChoice>>
  {
    match r
    case Err(e) => Err(e)
    case Ok(rest) => Ok(prefix + rest)
  }

  lemma {:induction false} PrependToAppend(a: seq<RoleChoice>, b: seq<RoleChoice>, r: Result<seq<RoleChoice>>)
    ensures PrependTo(a, PrependTo(b, r)) == PrependTo(a + b, r)
  {
    if r.Ok? {
      assert a + (b + r.value) == (a + b) + r.value;
    }
  }

  /** One step of `FetchAll` at position `i`. */
  lemma {:induction false} FetchAllAt(accounts: seq<Account>, rolesOf: string -> Result<seq<Role>>, i: nat)
    requires i < |accounts|
    ensures rolesOf(accounts[i].id).Err? ==> FetchAll(accounts[i..], rolesOf) == Err(rolesOf(accounts[i].id).error)
    ensures rolesOf(accounts[i].id).Ok? ==>
      FetchAll(accounts[i..], rolesOf)
        == PrependTo(ChoicesFor(accounts[i], rolesOf(accounts[i].id).value), FetchAll(accounts[i + 1..], rolesOf))
  {
    assert accounts[i..][0] == accounts[i] && accounts[i..][1..] == accounts[i + 1..];
  }

  /**
   * The specification of `fetch_choices_with_cache`: the token from
   * `CacheToken`, then the accounts listed with it, then the choices of
   * every account; the first failure is the result.
   */
  function FetchWithCache(loaded: Result<CacheEntry>, ssoRegion: Option<string>,
                          authorize: string -> Result<CacheEntry>,
                          listAccounts: CacheEntry -> Result<seq<Account>>,
                          listRoles: CacheEntry -> string -> Result<seq<Role>>)
    : Result<(CacheEntry, seq<RoleChoice>)>
  {
    match CacheToken(loaded, ssoRegion, authorize)
    case Err(e) => Err(e)
    case Ok(cache) =>
      match listAccounts(cache)
      case Err(e) => Err(e)
      case Ok(accounts) =>
        match FetchAll(accounts, listRoles(cache))
        case Err(e) => Err(e)
        case Ok(choices) => Ok((cache, choices))
  }

  /**
   * `fetch_choices_with_cache`. `listAccounts(cache)` and
   * `listRoles(cache)(accountId)` are the outcomes of the listing calls made
   * with the token and region of `cache`.
   */
  method FetchChoicesWithCache(loaded: Result<CacheEntry>, ssoRegion: Option<string>,
                               authorize: string -> Result<CacheEntry>,
                               listAccounts: CacheEntry -> Result<seq<Account>>,
                               listRoles: CacheEntry -> string -> Result<seq<Role>>)
    returns (r: Result<(CacheEntry, seq<RoleChoice>)>)
    ensures r == FetchWithCache(loaded, ssoRegion, authorize, listAccounts, listRoles)
    ensures r.Ok? ==> r.value.0 == CacheToken(loaded, ssoRegion, authorize).value
  {
    var token := CacheToken(loaded, ssoRegion, authorize);
    if token.Err? {
      return Err(token.error);
    }
    var cache := token.value;
    var accounts := listAccounts(cache);
    if accounts.Err? {
      return Err(accounts.error);
    }
    var choices := CollectChoices(accounts.value, listRoles(cache));
    if choices.Err? {
      return Err(choices.error);
    }
    r := Ok((cache, choices.value));
  }

  /** The options given on the command line (`AppOptions`). */
  datatype AppOptions = AppOptions(
    startUrl: Option<string>, ssoRegion: Option<string>, manageHidden: bool, refreshSeconds: Option<nat>)

  /** The values of the loaded configuration file that `run` uses. */
  datatype ConfigValues = ConfigValues(
    ssoStartUrl: Option<string>, ssoRegion: Option<string>, refreshSeconds: Option<nat>,
    hiddenRoles: seq<HiddenRole>)

  /** The settings a run works with once the options and the configuration are merged. */
  datatype Settings = Settings(startUrl: string, ssoRegion: Option<string>, refreshSeconds: Option<nat>)

  /**
   * The merge at the start of `run`: each command-line value wins over the
   * configured one; without any start URL the run fails with `MissingStartUrl`.
   */
  function MergeSettings(options: AppOptions, config: ConfigValues): (r: Result<Settings>)
    ensures r.Err? <==> options.startUrl.None? && config.ssoStartUrl.None?
    ensures r.Err? ==> r.error == MissingStartUrl
    ensures r.Ok? ==> r.value.startUrl == (if options.startUrl.Some? then options.startUrl.value else config.ssoStartUrl.value)
    ensures r.Ok? ==> r.value.ssoRegion == (if options.ssoRegion.Some? then options.ssoRegion else config.ssoRegion)
    ensures r.Ok? ==> r.value.refreshSeconds == (if options.refreshSeconds.Some? then options.refreshSeconds else config.refreshSeconds)
  {
    match options.startUrl.Or(config.ssoStartUrl)
    case None => Err(MissingStartUrl)
    case Some(url) => Ok(Settings(url, options.ssoRegion.Or(config.ssoRegion), options.refreshSeconds.Or(config.refreshSeconds)))
  }

  /** How a successful run ends. */
  datatype RunEnd =
    | HiddenRolesSaved
    | NothingSelected
    | Exported(text: string)

  /** The `k`-th fetch fails or offers at least one visible choice: the refresh loop stops there. */
  predicate StopsAt(fetch: nat -> Result<(CacheEntry, seq<RoleChoice>)>, hidden: seq<HiddenRole>, k: nat)
  {
    fetch(k).Err? || FilterHidden(fetch(k).value.1, hidden) != []
  }

  /** The refresh loop, once entered, stops after finitely many fetches. */
  ghost predicate RefreshEnds(fetch: nat -> Result<(CacheEntry, seq<RoleChoice>)>, hidden: seq<HiddenRole>)
  {
    exists k: nat :: k >= 1 && StopsAt(fetch, hidden, k)
  }

  /** Every fetch before the `n`-th succeeded and left nothing visible. */
  predicate NothingVisibleBefore(fetch: nat -> Result<(CacheEntry, seq<RoleChoice>)>, hidden: seq<HiddenRole>, n: nat)
  {
    forall k :: 0 <= k < n ==> fetch(k).Ok? && FilterHidden(fetch(k).value.1, hidden) == []
  }

  /**
   * The refresh loop of `run`, entered after the first fetch (number 0)
   * showed nothing: wait `seconds`, fetch again, and repeat until a fetch
   * fails or shows a visible choice. It returns that fetch's token and
   * visible choices.
   */
  method RefreshUntilVisible(fetch: nat -> Result<(CacheEntry, seq<RoleChoice>)>, hidden: seq<HiddenRole>, seconds: nat)
    returns (r: Result<(CacheEntry, seq<RoleChoice>)>, fetches: nat, sleeps: seq<nat>)
    requires !StopsAt(fetch, hidden, 0) && RefreshEnds(fetch, hidden)
    ensures fetches >= 2 && NothingVisibleBefore(fetch, hidden, fetches - 1) && StopsAt(fetch, hidden, fetches - 1)
    ensures |sleeps| == fetches - 1 && forall s :: s in sleeps ==> s == seconds
    ensures fetch(fetches - 1).Err? ==> r == Err(fetch(fetches - 1).error)
    ensures fetch(fetches - 1).Ok? ==>
      r == Ok((fetch(fetches - 1).value.0, FilterHidden(fetch(fetches - 1).value.1, hidden)))
  {
    ghost var bound: nat :| bound >= 1 && StopsAt(fetch, hidden, bound);
    fetches := 1;
    sleeps := [];
    while true
      invariant 1 <= fetches <= bound
      invariant NothingVisibleBefore(fetch, hidden, fetches)
      invariant |sleeps| == fetches - 1 && forall s :: s in sleeps ==> s == seconds
      decreases bound - fetches
    {
      sleeps := sleeps + [seconds];
      var refreshed := fetch(fetches);
      fetches := fetches + 1;
      if refreshed.Err? {
        return Err(refreshed.error), fetches, sleeps;
      }
      var visible := FilterHidden(refreshed.value.1, hidden);
      if visible != [] {
        return Ok((refreshed.value.0, visible)), fetches, sleeps;
      }
    }
  }

  /**
   * The end of `run` once the visible choices are known: the picker's
   * choice, if any, gets its credentials and the export text of the role's
   * profile name and the token's region.
   */
  function Finish(cache: CacheEntry, visible: seq<RoleChoice>,
                  select: seq<RoleChoice> -> Result<Option<RoleChoice>>,
                  getCredentials: (CacheEntry, RoleChoice) -> Result<AwsRoleCredentials>,
                  rfc3339: nat -> Option<string>): (r: Result<RunEnd>)
    ensures select(visible).Err? ==> r == Err(select(visible).error)
    ensures select(visible) == Ok(None) ==> r == Ok(NothingSelected)
    ensures select(visible).Ok? && select(visible).value.Some? ==>
      var choice := select(visible).value.value;
      && (getCredentials(cache, choice).Err? ==> r == Err(getCredentials(cache, choice).error))
      && (getCredentials(cache, choice).Ok? ==>
            r == Ok(Exported(ToExportLines(
                   FromRoleCredentials(getCredentials(cache, choice).value,
                                       Sanitize("roleman-" + choice.accountId + "-" + choice.roleName),
                                       cache.region), rfc3339))))
  {
    match select(visible)
    case Err(e) => Err(e)
    case Ok(None) => Ok(NothingSelected)
    case Ok(Some(choice)) =>
      match getCredentials(cache, choice)
      case Err(e) => Err(e)
      case Ok(creds) =>
        Ok(Exported(ToExportLines(
          FromRoleCredentials(creds, Sanitize("roleman-" + choice.accountId + "-" + choice.roleName), cache.region),
          rfc3339)))
  }

  /**
   * `App::run`. `config` is the outcome of loading the configuration file;
   * `fetch(k)` the outcome of the k-th `fetch_choices_with_cache`;
   * `manage(choices, hidden)` the outcome of editing and saving the hidden
   * roles; `select(visible)` the outcome of the picker; and
   * `getCredentials(cache, choice)` that of fetching the role's credentials.
   * The run reports the number of fetches and the waits it made.
   */
  method Run(options: AppOptions, config: Result<ConfigValues>,
             fetch: nat -> Result<(CacheEntry, seq<RoleChoice>)>,
             manage: (seq<RoleChoice>, seq<HiddenRole>) -> Result<()>,
             select: seq<RoleChoice> -> Result<Option<RoleChoice>>,
             getCredentials: (CacheEntry, RoleChoice) -> Result<AwsRoleCredentials>,
             rfc3339: nat -> Option<string>)
    returns (r: Result<RunEnd>, fetches: nat, sleeps: seq<nat>)
    requires config.Ok? && MergeSettings(options, config.value).Ok?
             && MergeSettings(options, config.value).value.refreshSeconds.Some?
             && !options.manageHidden && !StopsAt(fetch, config.value.hiddenRoles, 0)
             ==> RefreshEnds(fetch, config.value.hiddenRoles)
    ensures config.Err? ==> r == Err(config.error) && fetches == 0
    ensures config.Ok? && MergeSettings(options, config.value).Err? ==> r == Err(MissingStartUrl) && fetches == 0
    ensures config.Ok? && MergeSettings(options, config.value).Ok? ==> fetches >= 1
    ensures config.Ok? && MergeSettings(options, config.value).Ok? && fetches >= 1 ==>
      var hidden := config.value.hiddenRoles;
      var seconds := MergeSettings(options, config.value).value.refreshSeconds;
      var last := fetch(fetches - 1);
      && NothingVisibleBefore(fetch, hidden, fetches - 1)
      && |sleeps| == fetches - 1 && (forall s :: s in sleeps ==> seconds == Some(s))
      && (last.Err? ==> r == Err(last.error))
      && (options.manageHidden ==> fetches == 1)
      && (last.Ok? && options.manageHidden ==>
            r == (if manage(last.value.1, hidden).Err? then Err(manage(last.value.1, hidden).error)
                  else Ok(HiddenRolesSaved)))
      && (last.Ok? && !options.manageHidden ==>
            var visible := FilterHidden(last.value.1, hidden);
            && (visible == [] ==> fetches == 1 && seconds.None?)
            && r == Finish(last.value.0, visible, select, getCredentials, rfc3339))
  {
    sleeps := [];
    fetches := 0;
    if config.Err? {
      return Err(config.error), fetches, sleeps;
    }
    var hidden := config.value.hiddenRoles;
    var settings := MergeSettings(options, config.value);
    if settings.Err? {
      return Err(settings.error), fetches, sleeps;
    }
    var first := fetch(0);
    fetches := 1;
    if first.Err? {
      return Err(first.error), fetches, sleeps;
    }
    var cache := first.value.0;
    var choices := first.value.1;
    if options.manageHidden {
      var saved := manage(choices, hidden);
      if saved.Err? {
        return Err(saved.error), fetches, sleeps;
      }
      return Ok(HiddenRolesSaved), fetches, sleeps;
    }
    var visible := FilterHidden(choices, hidden);
    if visible == [] && settings.value.refreshSeconds.Some? {
      var refreshed;
      refreshed, fetches, sleeps := RefreshUntilVisible(fetch, hidden, settings.value.refreshSeconds.value);
      if refreshed.Err? {
        return Err(refreshed.error), fetches, sleeps;
      }
      cache, visible := refreshed.value.0, refreshed.value.1;
    }
    var selected := select(visible);
    if selected.Err? {
      return Err(selected.error), fetches, sleeps;
    }
    if selected.value.None? {
      return Ok(NothingSelected), fetches, sleeps;
    }
    var choice := selected.value.value;
    var profileName := ProfileNameFor(choice);
    var creds := getCredentials(cache, choice);
    if creds.Err? {
      return Err(creds.error), fetches, sleeps;
    }
    var env := FromRoleCredentials(creds.value, profileName, cache.region);
    r := Ok(Exported(ToExportLines(env, rfc3339)));
  }
}
