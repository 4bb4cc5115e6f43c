# roleman, modelled in Dafny

roleman is a command-line picker for AWS IAM Identity Center (SSO) roles. It
obtains an SSO access token, either from the AWS CLI's token cache or through
the OAuth 2.0 device authorization grant (RFC 8628). It lists every account and
role the token can reach, hides the roles the user configured away, ranks the
rest by the user's selection history, and lets the user pick one in a fuzzy
finder. It then fetches the role's short-lived credentials and prints them as
`export` lines for the shell hook to evaluate. Around that pipeline sit:

- a roles cache with a 24-hour lifetime;
- a credentials cache with a 60-second safety margin;
- a shell hook installer for bash, zsh and fish;
- desktop automation run after sign-in: closing the browser's loopback
  sign-in tab and focusing the terminal again, on macOS, Linux and Windows;
- a mock SSO server for end-to-end runs.

The model has one Dafny module per core source file:

| module | source |
|---|---|
| `AwsSdk` | src/aws_sdk.rs |
| `SsoCache` | src/sso_cache.rs |
| `RolesCache` | src/roles_cache.rs |
| `CredentialsCache` | src/credentials_cache.rs |
| `History` | src/history.rs |
| `StableSort` | the stable sort that src/history.rs relies on |
| `Lib` | src/lib.rs |
| `Model` | src/model.rs |
| `AwsConfig` | src/aws_config.rs |
| `Cli` | src/main.rs |
| `Shells` | src/shell/mod.rs and src/shell/fish.rs |
| `Tui` | src/tui.rs |
| `Detect` (with its example facts in `DetectTests`) | src/desktop/detect.rs |
| `Macos` | src/desktop/macos.rs |
| `Permissions` | src/desktop/permissions.rs |
| `Linux` | src/desktop/linux.rs |
| `Windows` | src/desktop/windows.rs |
| `Unsupported` | src/desktop/unsupported.rs |
| `DesktopUtil` | src/desktop/util.rs |
| `MockServer` | src/mock_server.rs |

Shared modules:

- `Errors` mirrors src/error.rs, and adds the `AwsCli`/`AwsCliOutput` variants that the CLI wrapper uses.
- `Wrappers` defines `Option`.
- `Strings` and `Seqs` hold the string and sequence operations of the Rust standard library that the core uses.
- `Paths` holds the parts of Rust's `std::path` the core uses: `join`, `file_name` and `extension`. `file_name` takes a flag for Windows paths, where '\\' separates components as '/' does; the classifiers of src/desktop/detect.rs and `Shells.DetectShellFromEnv` pass that flag on.
- `FileStore` is the abstract file system: a map from path to contents, with a `Disk` class that writes.

State the source changes in place is modelled by classes with `modifies` clauses:

- `History.HistoryLog` holds the history log;
- `FileStore.Disk` holds the files of the roles cache, the credentials cache and the permission flag.

Loops are methods with invariants, each proved against a specification function:

- the retry loop and the pagination loops;
- the token scan and the device-authorization poll loop;
- the sanitiser;
- the statistics build;
- the parent-process walk;
- the picker's item building.

String classifiers, formatters and routing are functions, with lemmas about them.

Clocks, environment variables, process tables, command runs and remote
calls are parameters: the current time, an outcome table, or a function from
the k-th call to its outcome. JSON/TOML encoding and parsing, SHA-1 and
RFC 3339 (section 5.6) timestamps are supplied deterministic functions. The
properties about them hold for every such function, and where a round trip
is needed it is a precondition on the supplied pair.

Where the source's documentation and its code disagree, the model follows the code:

- SSO token selection takes the first unexpired cache entry in directory-listing order. It does not take the latest-expiring entry.
- Device-authorization polling waits `max(interval, 1)` seconds after every AWS CLI error reply, `slow_down` included, and never adds the 5 seconds that section 3.5 of RFC 8628 asks for.
- The source files come from slightly different revisions:
  - src/lib.rs calls `tui::select_role` with one argument, and src/tui.rs defines it with five. `Lib.Run` takes the picker's outcome as a supplied function, and `Tui.SelectRole` models the five-argument definition.
  - src/tui.rs calls a two-argument `profile_name_for`, and src/aws_config.rs defines it with one. `Tui` takes the two-argument namer as a supplied function, and `AwsConfig.ProfileNameFor` models the one-argument definition.
  - src/main.rs reads the configuration fields `hook_prompt` and `prompt_for_hook`, and the `Config` struct of src/config.rs declares neither. `Cli.HookPromptModeOf` takes both settings as parameters.

The model departs from the code in one place, the defect listed under "## Findings". `SsoCache.LoadValidCache` applies the corrected expiry test `SsoCache.Expiry`. The test as written, with its `u64` cast, is `SsoCache.ExpiryAsWritten`. `SsoCache.LoadAgreesAfterEpoch` proves that both tests select the same entry when every expiry is from 1970 on. `SsoCache.PreEpochEntrySelected` gives a cache on which they differ.

## Model

| member | source | states |
|---|---|---|
| AwsSdk.FormatSdkError | src/aws_sdk.rs:256-277 | the message is the base text followed by " \| code=…", " \| message=…" and " \| request_id=…" for exactly the metadata present, in that order |
| AwsSdk.FormatSdkErrorBase | src/aws_sdk.rs:261-265 | the message starts with the display text, or with the debug text when the display text is the generic "service error" |
| AwsSdk.ThrottleIff | src/aws_sdk.rs:190-203 | an error is throttling iff its code is one of the three throttling codes or its message holds one of the throttling phrases |
| AwsSdk.IsThrottleError | src/aws_sdk.rs:190-203 | the classification as the source writes it; `ThrottleIff` states it as an iff over codes and phrases |
| AwsSdk.UnknownCodeFallsThrough | src/aws_sdk.rs:190-203 | with an unrecognised code, the classification is decided by the message alone |
| AwsSdk.Backoff | src/aws_sdk.rs:181 | the backoff after an attempt never exceeds the u64 maximum (the multiplication saturates) |
| AwsSdk.FirstBackoffs | src/aws_sdk.rs:181 | the first four backoffs are 500, 1000, 2000 and 4000 ms |
| AwsSdk.BackoffValues | src/aws_sdk.rs:121 | five throttled attempts sleep 500, 1000, 2000 and 4000 ms between them |
| AwsSdk.RetryFrom | src/aws_sdk.rs:172-187 | a run makes at least one call and sleeps once fewer than it calls |
| AwsSdk.RetrySdk | src/aws_sdk.rs:166-188 | the loop's result, call count and sleeps are those of the retry specification |
| AwsSdk.RetrySuccessImmediate | src/aws_sdk.rs:174-175 | a first call that succeeds is returned after one call and no sleep |
| AwsSdk.RetryNonThrottleStops | src/aws_sdk.rs:176-180 | a non-throttling error ends the loop after one call with `AwsSdk(<formatted message>)` |
| AwsSdk.RetryAllThrottled | src/aws_sdk.rs:172-187 | when every call is throttled, n attempts make n calls and n - 1 growing sleeps, and fail with the last call's error |
| AwsSdk.RetryThrottledRun | src/aws_sdk.rs:172-187 | a throttled run from any attempt on makes one call per remaining attempt and sleeps the backoff schedule |
| AwsSdk.RetryThrottledStep | src/aws_sdk.rs:178-184 | a throttled attempt before the last sleeps its backoff and tries again |
| AwsSdk.RetryThrottledLast | src/aws_sdk.rs:178-179 | a throttled last attempt fails with its own error and does not sleep |
| AwsSdk.RetryCallsBounded | src/aws_sdk.rs:178 | no run makes more calls than the attempt limit allows (one, when the limit is zero) |
| AwsSdk.BackoffSchedule | src/aws_sdk.rs:181 | the schedule holds one backoff per throttled attempt |
| AwsSdk.Paginate | src/aws_sdk.rs:112-131 | the loop returns the specification's collection of the pages; it sends one request per page until a page without a non-empty token, each with the previous page's token |
| AwsSdk.CollectErrorAborts | src/aws_sdk.rs:120-121 | an error on any page before the listing ends loses the whole listing, with no partial result |
| AwsSdk.CollectPagesInOrder | src/aws_sdk.rs:123-128 | the items of successive pages come out page by page, in order |
| AwsSdk.Collect | src/aws_sdk.rs:112-131 | the listing the pagination loop builds; `CollectErrorAborts` and `CollectPagesInOrder` state its error and order |
| AwsSdk.AccountFromSdk | src/aws_sdk.rs:243-248 | an account is kept iff it has both an id and a name, and keeps both |
| AwsSdk.RoleFromSdk | src/aws_sdk.rs:250-254 | a role is kept iff it has a name |
| AwsSdk.ListAccounts | src/aws_sdk.rs:109-132 | the accounts are the collection of the pages through `account_from_sdk` |
| AwsSdk.ListAccountRoles | src/aws_sdk.rs:134-164 | the roles are the collection of the pages through `role_from_sdk` |
| AwsSdk.ListedAccountsComplete | src/aws_sdk.rs:123 | every account item with an id and a name appears in a page's converted accounts |
| CredentialsCache.CredsFilename | src/credentials_cache.rs:79-87 | the name is "creds-", then the digest of the key's four fields run together, then ".json" |
| CredentialsCache.SameConcatenationSameFile | src/credentials_cache.rs:79-87 | two keys whose fields run together to the same text share one file, whatever the digest |
| CredentialsCache.ShiftedKeysCollide | src/credentials_cache.rs:79-87 | a region moved into the end of the start URL names the same file |
| CredentialsCache.CredsPath | src/credentials_cache.rs:74-77 | the path fails with MissingHome exactly when neither `XDG_CACHE_HOME` nor `HOME` is set, and otherwise ends with the key's file name |
| CredentialsCache.IsExpired | src/credentials_cache.rs:89-96 | credentials count as expired once now plus the 60-second margin has reached their expiry |
| CredentialsCache.ExpiryMargin | src/credentials_cache.rs:12 | 59 and exactly 60 seconds left are expired, 61 seconds left is not |
| CredentialsCache.LoadCachedCredentials | src/credentials_cache.rs:22-49 | the error is MissingHome exactly when the path fails; otherwise a value is found iff the file exists, decodes and is not expired, and its four fields are the stored ones |
| CredentialsCache.SaveCachedCredentials | src/credentials_cache.rs:51-72 | a missing home, a cache directory that cannot be made and an encode or write that fails each give their error and leave the files alone; otherwise only the key's file is replaced by the encoding |
| CredentialsCache.SaveLoadRoundTrip | src/credentials_cache.rs:104-145 | saved credentials load back field for field while more than the margin is left, and as nothing after that |
| CredentialsCache.ExpiredEntryIsMiss | src/credentials_cache.rs:147-178 | credentials that expired two minutes ago load as nothing |
| DesktopUtil.FailureDetail | src/desktop/util.rs:5-18 | the trimmed standard error when it is not empty, else the trimmed standard output, else the exit code with 1 for a missing code |
| DesktopUtil.CommandOutputErrorNamesProgram | src/desktop/util.rs:5-18 | every such error is a Config message starting with the program and " failed" |
| DesktopUtil.StderrWins | src/desktop/util.rs:6-9 | with something on standard error, the standard output and the code do not matter |
| DesktopUtil.SilentRunReportsCode | src/desktop/util.rs:14-17 | a run that printed nothing and has no code reports exit code 1 |
| DesktopUtil.RunStatus | src/desktop/windows.rs:72-81 | Ok exactly for a run that started and succeeded; a failed run gives its output's error, one that did not start "failed to run <program>: <reason>" |
| History.BuildStats | src/history.rs:184-210 | the loop over the entries computes the statistics function of the entries |
| History.StatsOf | src/history.rs:184-210 | the statistics map the loop builds, entry by entry |
| History.StatsKeys | src/history.rs:192-194 | a key has statistics exactly when some entry of the identity is recorded under it |
| History.NoEntriesNoStats | src/history.rs:173-176 | there are no statistics exactly when no entry has the identity |
| History.StatsFrequency | src/history.rs:199-201 | `frequency_30d` counts the key's entries at most 30 days old, saturated at the u32 maximum |
| History.StatsCwd | src/history.rs:202-206 | `cwd_matches` holds exactly when a directory is known and some entry of the key was made there |
| History.StatsMinAge | src/history.rs:195-198 | the key's recorded age is the smallest age among its entries, so its recency is the largest |
| History.StatsIgnoreAccountName | src/history.rs:193 | the statistics do not depend on account names |
| History.StatsSnoc | src/history.rs:192-207 | one more entry is one more step of the fold |
| History.StatsOnlyOwnIdentity | src/history.rs:192 | entries of other identities change nothing |
| History.WindowBoundary | src/history.rs:199 | an entry exactly 30 days old counts in the window; one second older does not |
| History.FutureEntryCounts | src/history.rs:195-200 | an entry dated after now has a negative age and counts |
| History.ScoreForChoice | src/history.rs:212-216 | a choice without statistics scores exactly 0 |
| History.Weigh | src/history.rs:217-219 | the weighted sum of recency, frequency and context; `ScoreBounds` bounds it |
| History.ScoreBounds | src/history.rs:195-219 | for a scoring whose recency is positive, and at most 1 for an age that is not negative, and whose frequency ratio is non-negative, and at most 1 up to 30 picks (as `exp(-age_days / 14)` and `ln(n + 1) / ln 31` are), every score is non-negative, and a key with no future entry and at most 30 picks in the window scores at most 1 |
| History.ScoreMonotoneInFrequency | src/history.rs:217-219 | with an increasing frequency ratio, more picks within the window never lower the score |
| History.ScoreMonotoneInRecency | src/history.rs:195-219 | with a decreasing recency, a younger smallest age never lowers the score |
| History.ContextBoost | src/history.rs:218-219 | a matching directory adds exactly the 0.10 context weight |
| History.ScoreIgnoresAccountName | src/history.rs:213 | choices that differ only in account name score alike |
| History.SortChoicesWithHistory | src/history.rs:166-182 | the array ends as the ranking of its old contents |
| History.RankChoicesSorted | src/history.rs:177-181 | the ranking is a permutation, in descending score, keeping the input order among equal scores |
| History.RankChoicesNoHistory | src/history.rs:174-176 | without an entry of the identity the choices keep their order |
| History.RankChoices | src/history.rs:166-182 | the ranking the sort produces; `RankChoicesSorted` and `RankChoicesNoHistory` state its properties |
| History.HistoryPath | src/history.rs:102-110 | MissingHome exactly when neither `XDG_STATE_HOME` nor `HOME` is set; otherwise a path under the first set one, ending in "history.jsonl" |
| History.UnderBase | src/history.rs:109 | the joined path lies under the base and ends in "history.jsonl" |
| History.LoadLinesFrom | src/history.rs:145-161 | an unreadable line stops the load with its error; a readable one adds its entry, if any, before the rest |
| History.LoadStep | src/history.rs:145-161 | the loop's invariant carries over one readable line |
| History.LoadEntriesFromLines | src/history.rs:140-164 | the loop computes the load function of the lines |
| History.LoadLinesError | src/history.rs:146 | a load fails exactly when some line cannot be read, with the first such line's error |
| History.LoadLinesStep | src/history.rs:145-146 | the first line's effect on the load's outcome |
| History.LoadLinesFailsIff | src/history.rs:146 | the load fails iff a line cannot be read |
| History.LoadLinesFirstError | src/history.rs:146 | the error is that of the first unreadable line |
| History.LoadLinesReadable | src/history.rs:147-161 | with every line readable the load keeps the decodable non-blank lines' entries, in order |
| History.LoadLinesSnoc | src/history.rs:151 | an appended line adds its entry, if any, at the end |
| History.LoadLines | src/history.rs:140-164 | the load of the file's lines; the `LoadLines…` lemmas state its errors and contents |
| History.LoadEntries | src/history.rs:132-138 | MissingHome without a history path, no entries for an absent file, an open error as Config, else the load of the lines |
| History.SkipsInvalidLines | src/history.rs:287-303 | a valid line then an invalid one loads as the valid entry alone |
| History.NewestFirst | src/history.rs:87-92 | the sort-and-truncate computes the newest-first function of the entries |
| History.FilterPrefix | src/history.rs:90 | truncation keeps a prefix of the entries passing any test |
| History.NewestSorted | src/history.rs:89-90 | the result holds min(limit, n) entries, newest first |
| History.NewestFromEntries | src/history.rs:88-90 | each entry returned was loaded, and none is lost when the limit allows all |
| History.NewestKeepsNewer | src/history.rs:89-90 | every entry newer than one returned is returned too |
| History.NewestStable | src/history.rs:89 | entries of equal time keep their file order |
| History.Newest | src/history.rs:87-92 | the newest-first prefix; the `Newest…` lemmas state its order, bound and contents |
| History.FormatTimestamp | src/history.rs:121-130 | the RFC 3339 text when the instant can be formatted, else the decimal number |
| History.FormatTimestampFallback | src/history.rs:129 | beyond the year 9999 the timestamp prints as its number and reads back |
| History.FormatEntryColumns | src/history.rs:112-119 | splitting a display line on tabs gives back its five columns when none holds a tab |
| History.FormatEntry | src/history.rs:112-119 | the display line; `FormatEntryColumns` reads it back into its columns |
| History.HistoryLog.Load | src/history.rs:132-138 | the load of the current file: empty when absent, else the lines' load |
| History.HistoryLog.RecordSelection | src/history.rs:37-58 | a missing home, a failed directory creation or a failed open is an error that leaves the file as it was; once the open has succeeded the file exists, so a serializer error or a write error is a `Config` error with its message that leaves the old lines in a present file; otherwise the serialized entry is appended as one line |
| History.HistoryLog.ClearEntries | src/history.rs:94-100 | the file is removed exactly when the path resolves and removal works; an absent file is success |
| History.HistoryLog.RecentEntries | src/history.rs:87-92 | a load error is returned; otherwise the newest `limit` entries, newest first |
| History.HistoryLog.ApplyHistorySort | src/history.rs:60-85 | a non-blank query or an empty log leaves the choices alone; a load error is returned; otherwise the choices are ranked |
| History.RecordThenLoad | src/history.rs:255-285 | a recorded selection loads back at the end of the log |
| History.FirstRecordIsRecent | src/history.rs:255-285 | the first selection into an absent log is the one recent entry |
| Lib.FilterHidden | src/lib.rs:109-115 | a choice is kept exactly when it is a choice no hidden entry matches |
| Lib.FilterHiddenAppend | src/lib.rs:109-115 | filtering works piecewise, so kept choices stay in input order |
| Lib.NothingHidden | src/lib.rs:109-115 | with nothing hidden every choice is kept in place |
| Lib.FiltersHiddenRoles | src/lib.rs:123-140 | hiding (1234, Admin) of Admin and ReadOnly leaves ReadOnly alone |
| Lib.CacheToken | src/lib.rs:102-107 | a loaded token is used; otherwise MissingRegion without a region, else the device authorization's outcome |
| Lib.CachedTokenNeedsNoRegion | src/lib.rs:103 | a usable cached token is used whatever the region and the authorization |
| Lib.CacheTokenOk | src/lib.rs:102-107 | success iff a token loads or a region is known and authorization succeeds; which load error occurred does not matter |
| Lib.ChoicesFor | src/lib.rs:95-97 | one choice per role, in the roles' order |
| Lib.FetchAllError | src/lib.rs:93-98 | the fetch fails exactly when some account's roles fail to list, with the first failure's error |
| Lib.FetchAllLength | src/lib.rs:93-98 | with every listing successful there is one choice per listed role |
| Lib.FetchAllLayout | src/lib.rs:93-98 | role j of account i sits right after the roles of the accounts before i |
| Lib.CollectChoices | src/lib.rs:91-99 | the nested loop computes the flattened fetch |
| Lib.FetchAllAt | src/lib.rs:94-97 | one step of the outer loop at account i |
| Lib.FetchAll | src/lib.rs:91-99 | the outer fetch over the accounts; `FetchAllError`, `FetchAllLength` and `FetchAllLayout` state its outcome |
| Lib.FetchChoicesWithCache | src/lib.rs:86-100 | the token errors or the account listing error is returned; otherwise the choices of the token's fetch, with the token |
| Lib.MergeSettings | src/lib.rs:33-41 | MissingStartUrl exactly when neither side gives a start URL; each command-line value wins over the configured one |
| Lib.RefreshUntilVisible | src/lib.rs:54-67 | fetches repeat, sleeping `seconds` between, until one fails or shows a visible choice, and that fetch's outcome is returned |
| Lib.Finish | src/lib.rs:69-82 | the picker's error, nothing selected, the credentials error, or the export text of the selected role's credentials under its profile name |
| Lib.Run | src/lib.rs:32-83 | a config error, MissingStartUrl and the first fetch's error are returned as they are; hidden-role management ends after saving; otherwise refreshing runs only when nothing is visible and a refresh interval is set, and the run finishes with the visible choices |
| Model.NewChoice | src/model.rs:28-35 | a choice carries the account's id and name and the role's name unchanged |
| Model.Label | src/model.rs:37-39 | the label starts with "name (id)" and ends with an em dash and the role |
| Model.LabelInjectiveWithinAccount | src/model.rs:37-39 | within one account, equal labels mean equal choices |
| Model.FromRoleCredentials | src/model.rs:98-112 | the credentials, region and profile are copied and no config file is set |
| Model.FormatExpiration | src/model.rs:132-140 | the RFC 3339 text of the whole second when it can be formatted, else the millisecond count in decimal |
| Model.FormatExpirationWholeSeconds | src/model.rs:133 | expirations within the same formattable second render alike |
| Model.ExportNamesClean | src/model.rs:117-126 | no variable name holds '=' or a newline |
| Model.ExportAssignments | src/model.rs:116-127 | seven fixed variables in order, both region variables carrying the region, and the config file only when set |
| Model.ParseExportLineOf | src/model.rs:117 | an `export NAME=value` line reads back as its name and value |
| Model.Render | src/model.rs:116-127 | one line per assignment |
| Model.ParseRendered | src/model.rs:128 | rendered lines joined by newlines read back as the assignments when no part holds a newline |
| Model.ExportLinesRoundTrip | src/model.rs:114-129 | the export text decodes, line by line, to exactly the intended assignments, in order |
| Model.ToExportLines | src/model.rs:114-129 | the export text; `ExportLinesRoundTrip` reads it back |
| Model.ParseExportLine | src/model.rs:117 | a reader of one `export NAME=value` line, the inverse used by `ParseExportLineOf` and `ExportLinesRoundTrip` |
| AwsConfig.SanitizeProfileName | src/aws_config.rs:8-26 | the loop's result is the sanitised name of the input, and it is a valid profile name |
| AwsConfig.Sanitize | src/aws_config.rs:8-26 | the sanitised name as a function of the input; `SanitizeValid`, `SanitizeIdempotent` and `SanitizeValidNoop` state its properties |
| AwsConfig.ProfileNameFor | src/aws_config.rs:3-6 | the profile name is the sanitised `roleman-<account id>-<role name>`, always valid |
| AwsConfig.MapChar | src/aws_config.rs:10-16 | each character becomes a profile character; ASCII letters, digits, '-' and '_' stay as they are |
| AwsConfig.ReplaceDoubleDash | src/aws_config.rs:18 | one `replace("--", "-")` pass never lengthens the text and brings in no new character |
| AwsConfig.ReplaceShrinks | src/aws_config.rs:17-19 | a pass over text holding "--" makes it strictly shorter, so the loop ends |
| AwsConfig.DoubleDashContained | src/aws_config.rs:17 | the loop's `contains("--")` test holds exactly when two dashes are adjacent |
| AwsConfig.CollapseReplace | src/aws_config.rs:17-19 | a replace pass does not change the text the loop finally leaves |
| AwsConfig.CollapseShape | src/aws_config.rs:17-19 | the loop leaves no "--" and only characters of its input |
| AwsConfig.CollapseNoop | src/aws_config.rs:17-19 | text without "--" leaves the loop unchanged |
| AwsConfig.TrimDashesShape | src/aws_config.rs:20 | trimming dashes from collapsed profile characters leaves nothing or a valid name |
| AwsConfig.DefaultNameValid | src/aws_config.rs:21-22 | the fallback "roleman" is a valid name |
| AwsConfig.SanitizeValid | src/aws_config.rs:8-26 | every input sanitises to a valid name: non-empty, profile characters only, no "--", no dash at either end |
| AwsConfig.SanitizeValidNoop | src/aws_config.rs:8-26 | a valid name is its own sanitised form |
| AwsConfig.SanitizeIdempotent | src/aws_config.rs:8-26 | sanitising twice gives the same as sanitising once |
| AwsConfig.SanitizeOfValidMapping | src/aws_config.rs:8-26 | when the character mapping alone gives a valid name, that is the result |
| AwsConfig.SanitizeExample | src/aws_config.rs:33-38 | "roleman-1234-Admin Role" sanitises to "roleman-1234-Admin-Role" |
| Cli.MergeCommonArgs | src/main.rs:248-273 | each optional flag is the subcommand's when it gives one and the top level's otherwise; each switch is on when either side sets it |
| Cli.MergeNoArgs | src/main.rs:248-273 | merging with an empty flag set on either side changes nothing |
| Cli.MergeAssociative | src/main.rs:248-273 | merging is associative |
| Cli.AppOptionsFromParts | src/main.rs:228-246 | every option is copied from the flags; `--account` wins over the positional account |
| Cli.BuildAppOptions | src/main.rs:214-226 | the action is Open exactly for `open`; `set` and `open` merge their flags over the top-level ones; any other command is a plain set from the top-level flags |
| Cli.AccountArguments | src/main.rs:496-511 | `roleman s prod` selects account "prod" for a set, and `roleman o --account prod` for an open |
| Cli.ResolveHookShell | src/main.rs:279-287 | a named shell is used when it is known, else "unsupported shell hook: <name>"; without a name the shell detected from `SHELL` is used |
| Cli.RemoveHookLinesLines | src/main.rs:343-358 | reading the result back line by line gives exactly the input's kept lines, in order, and an empty result when none is kept |
| Strings.LinesCarriageReturn | src/main.rs:344-345 | `str::lines` keeps the '\r' of an unterminated last line and strips it before a '\n' |
| Cli.RemoveHookLines | src/main.rs:343-358 | the rc text without hook lines; `RemoveHookLinesLines` and `ShellLinesRemoved` state what is kept |
| Cli.ShellLinesRemoved | src/main.rs:343-358 | every shell's install and alias lines are removed |
| Cli.CommentsAreInactive | src/main.rs:458-468 | a file made only of blank and comment lines has no active hook, whatever it mentions |
| Cli.HasActiveHook | src/main.rs:458-468 | some line of the file is active; `CommentsAreInactive`, `BlockIsActive` and `InstallLineActive` state when |
| Cli.InstallHook | src/main.rs:312-341 | installing is refused iff a hook is active and `--force` is not given, with that message; otherwise the old hook lines are removed when a hook was active, a newline ends the text, and the block is appended |
| Cli.Terminated | src/main.rs:334-336 | the text then ends with a newline (or is empty) and only a newline was added |
| Cli.InstallLineShape | src/shell/mod.rs:16-18 | an install line is one line that starts with neither whitespace nor '#' |
| Cli.HookBlockFramed | src/main.rs:326-333 | the block is the install line framed by newlines, then the alias line and a newline when asked for |
| Cli.BlockIsActive | src/main.rs:458-468 | whatever precedes it, the appended block makes the hook active |
| Cli.InstallLineActive | src/main.rs:458-468 | a line starting with neither whitespace nor '#' is active for itself |
| Cli.InstallThenActive | src/main.rs:312-341 | after an install the hook is active, so a second install without `--force` is refused |
| Cli.SplitFramed | src/main.rs:459 | a separator-free line framed by separators is one of the pieces of the split |
| Cli.LinesFramed | src/main.rs:459 | such a framed line is one of the text's lines |
| Cli.HookPromptModeOf | src/main.rs:470-478 | an explicit mode wins; otherwise the mode is Never exactly when the legacy switch is off; it is never Outdated |
| Cli.IsYesCasings | src/main.rs:455 | the accepted answers are exactly "y" and "yes" in any letter case, with any surrounding whitespace |
| Cli.IsYes | src/main.rs:455 | the answer test; `IsYesCasings` states the accepted answers |
| Shells.ShellForName | src/shell/mod.rs:29-36 | exactly "zsh", "bash" and "fish" are recognised, each naming its own shell |
| Shells.ShellForNameRoundTrip | src/shell/mod.rs:48-53 | every shell is found by its own name |
| Shells.DetectShellFromEnv | src/shell/mod.rs:38-42 | none without `SHELL` or without a file name; otherwise the shell that file name names, found exactly when it is "zsh", "bash" or "fish" |
| Shells.DetectKnownShell | src/shell/mod.rs:38-42 | a `SHELL` whose file name is a supported shell's name is always detected as that shell |
| Shells.DetectExamples | src/shell/mod.rs:38-42 | "/bin/zsh" is zsh, "/usr/local/bin/fish" is fish, "/bin/tcsh" is none |
| Shells.InstallLine | src/shell/fish.rs:46-48 | the `eval "$(roleman hook <name>)"` default, and "roleman hook fish \| source" for fish |
| Shells.AliasLine | src/shell/fish.rs:50-52 | "alias rl='roleman'", and fish's "alias rl roleman" |
| Shells.InstallLineNamesShell | src/shell/mod.rs:55-59 | every install line runs `roleman hook` with its shell's name |
| Shells.ReloadCommand | src/shell/mod.rs:24-26 | "source " followed by the rc path |
| Shells.FishRcPath | src/shell/fish.rs:33-44 | fails with "missing HOME" exactly when `XDG_CONFIG_HOME` is unset or empty and `HOME` is unset |
| Shells.FishRcPathXdg | src/shell/fish.rs:34-38 | with `XDG_CONFIG_HOME` set the file is `fish/config.fish` under it |
| Shells.FishRcPathHome | src/shell/fish.rs:39-43 | otherwise it is `.config/fish/config.fish` under `HOME` |
| Paths.JoinPath | src/sso_cache.rs:85 | `Path::join`: an absolute component replaces the base; otherwise the result ends with the component |
| Paths.JoinPathUnder | src/sso_cache.rs:85 | a relative component joined to a nonempty base stays under the base |
| Paths.LastSeparator | src/desktop/detect.rs:162-165 | the index of the last separator of the platform, with none after it, or none when the text holds no separator |
| Paths.FileName | src/desktop/detect.rs:162-165 | a file name, when there is one, is nonempty and holds no separator of the platform |
| Paths.FileNameWithoutBackslash | src/desktop/detect.rs:162-165 | a path without '\\' has the same file name on Windows and on Unix |
| Paths.Extension | src/sso_cache.rs:93 | an extension holds no '.', and the file name ends with '.' and the extension after a nonempty stem |
| Paths.ExtensionExamples | src/sso_cache.rs:93 | "token.json" and "a.b.json" have the extension "json"; ".json" and "json" have none |
| SsoCache.StrMember | src/sso_cache.rs:104-113 | a value exactly when the object has that member and it is a string |
| SsoCache.SsoCacheDir | src/sso_cache.rs:83-86 | MissingHome exactly when `HOME` is unset; otherwise a path under it |
| SsoCache.EntryOf | src/sso_cache.rs:91-122 | an entry exactly when the file has the "json" extension, reads, parses, its `startUrl` (empty when missing) is the asked one and it has all three string members, which it carries |
| SsoCache.ReadCacheEntries | src/sso_cache.rs:88-125 | MissingCache exactly when the directory cannot be read; otherwise the accepted entries in listing order |
| SsoCache.MissingStartUrlMatchesEmpty | src/sso_cache.rs:104-110 | a file with no `startUrl` matches an empty requested start URL |
| SsoCache.IsExpiredAsWritten | src/sso_cache.rs:127-143 | an unparsable expiry is CacheParse; a pre-1970 expiry wraps in the u64 cast and reads as not expired |
| SsoCache.PreEpochNeverExpires | src/sso_cache.rs:142 | an expiry one second before 1970 is valid at any time as written, yet expired as intended |
| SsoCache.IsExpired | src/sso_cache.rs:127-134 | an unparsable expiry is CacheParse; otherwise expired iff now has reached the expiry |
| SsoCache.IsExpiredAgreesAfterEpoch | src/sso_cache.rs:133 | from 1970 on both readings agree, and the boundary second is expired |
| SsoCache.AsU64 | src/sso_cache.rs:142 | the u64 cast: below 2^64, the identity on values in range, and a negative i64 plus 2^64 |
| SsoCache.LoadValidCache | src/sso_cache.rs:10-23 | MissingHome, MissingCache for an unreadable directory, else the first valid entry among those read, by the corrected expiry test (see Findings) |
| SsoCache.FirstValid | src/sso_cache.rs:14-22 | the scan for the first unexpired entry under a given expiry test |
| SsoCache.FirstValidSameTests | src/sso_cache.rs:14-22 | two expiry tests that agree on every entry select the same entry |
| SsoCache.LoadAgreesAfterEpoch | src/sso_cache.rs:14-22 | with every parsable expiry from 1970 on, the scan as written and the corrected scan agree |
| SsoCache.PreEpochEntrySelected | src/sso_cache.rs:142 | a lone entry that expired one second before 1970 is chosen as written, while the corrected scan reports MissingCache |
| SsoCache.FirstValidIsFirst | src/sso_cache.rs:14-19 | the entry chosen is unexpired and every one before it parsed and was expired |
| SsoCache.FirstValidIgnoresLater | src/sso_cache.rs:18-19 | entries after the first valid one are never looked at |
| SsoCache.AllExpiredIsMissing | src/sso_cache.rs:22 | all entries expired gives MissingCache |
| SsoCache.UnparsableAborts | src/sso_cache.rs:15 | an unparsable expiry before any valid entry aborts the lookup with CacheParse |
| SsoCache.CheckedAddOr | src/sso_cache.rs:43-45 | `checked_add(..).unwrap_or(now)`: the sum when it fits, else `now`, and never before `now` |
| SsoCache.Finish | src/sso_cache.rs:59-78 | an error answer is returned as it is; a token becomes an entry for the region expiring `expires_in` seconds after now, or at now when that passes the latest representable time; the login panics iff that expiry lies past 9999-12-31T23:59:59Z, the range of `OffsetDateTime::from` |
| SsoCache.FinishPanicsOnlyPastRange | src/sso_cache.rs:60-65 | while the latest representable time is within the `time` crate's range, a login never panics |
| SsoCache.FinishPanicsPastYear9999 | src/sso_cache.rs:60-65 | a one-year token issued at the last second of 9999 panics when the clock can reach further |
| SsoCache.DeviceAuthorization | src/sso_cache.rs:25-81 | registration and start errors are returned without polling; polling stops past the deadline (`expires_in` after the start, or the start itself when that overflows) with ExpiredCache, on a token (or in a panic when its expiry leaves the `time` crate's range), or on an error that is not a pending-authorization one, sleeping at least one second between polls |
| StableSort.InsertMultiset | src/history.rs:177-181 | inserting adds exactly that element |
| StableSort.InsertSorted | src/history.rs:177-181 | inserting into a sorted list keeps it sorted |
| StableSort.InsertKeyFilter | src/history.rs:177-181 | the inserted element goes after those sharing its key |
| StableSort.Insert | src/history.rs:177-181 | one insertion step of the stable sort; it adds one element |
| StableSort.SortDescSorted | src/history.rs:177-181 | the output is in descending key order |
| StableSort.SortDescPermutation | src/history.rs:177-181 | the output is a permutation of the input |
| StableSort.SortDescStable | src/history.rs:177-181 | elements of each key keep their input order, as `sort_by` is stable |
| StableSort.SortDescConstantKey | src/history.rs:174-181 | when every key is equal the order is unchanged |
| StableSort.SortDesc | src/history.rs:177-181 | the stable descending sort as repeated insertion; it keeps the length, and the `SortDesc…` lemmas state order, permutation and stability |
| StableSort.SortInPlace | src/history.rs:89 | the array ends holding the stable descending sort of its old contents |
| Tui.NormalizeInitialQuery | src/tui.rs:112-117 | none exactly when the query is absent or blank; otherwise the trimmed query |
| Tui.TrimTwice | src/tui.rs:114 | trimming twice is trimming once |
| Tui.NormalizeIdempotent | src/tui.rs:112-117 | normalising a normalised query changes nothing |
| Tui.NormalizePadded | src/tui.rs:288-295 | no query gives none, and a padded word gives the word |
| Tui.FindSingleQueryMatch | src/tui.rs:119-137 | a choice exactly when one choice's label matches, and then that choice |
| Tui.UniqueQuery | src/tui.rs:245-265 | exactly one matching choice is selected |
| Tui.AmbiguousQuery | src/tui.rs:268-285 | two different matching choices give no selection |
| Tui.ParseUsize | src/tui.rs:53 | a parsed value fits in a usize |
| Tui.Height | src/tui.rs:51-56 | items plus three, saturating, at most half of `LINES` but at least 10, or at most 20 without a usable `LINES` |
| Tui.HeightExamples | src/tui.rs:51-56 | without `LINES`, 2 choices give 5 lines and 40 give 20 |
| Tui.Reversed | src/tui.rs:48 | the reversal mirrors every index |
| Tui.ReversedTwice | src/tui.rs:48 | reversing twice gives the list back |
| Tui.ReversedMultiset | src/tui.rs:48 | reversal keeps every choice |
| Tui.ReverseInPlace | src/tui.rs:47-48 | the array ends reversed |
| Tui.CountsOfMeaning | src/tui.rs:147-153 | the counter holds exactly the accounts of the choices, each with its count |
| Tui.RolesPerAccount | src/tui.rs:149-153 | the loop computes those counts |
| Tui.CountsOf | src/tui.rs:147-153 | the per-account counter; `CountsOfMeaning` states its contents |
| Tui.OmitRoleNameIff | src/tui.rs:157-161 | the role name is left out exactly when the account has one choice |
| Tui.OmitRoleName | src/tui.rs:157-161 | the omission test on the counter; `OmitRoleNameIff` states it over the choices |
| Tui.ItemLabel | src/tui.rs:165-189 | the plain label without `AWS_PROFILE`; otherwise a two-character marker, "* " for a matching profile with valid credentials, "! " for a matching one otherwise, two spaces for others |
| Tui.LookupOfMeaning | src/tui.rs:190 | with distinct labels, each label maps to its own choice |
| Tui.LookupOfKeys | src/tui.rs:190 | the table knows exactly the labels, and each maps to a given choice |
| Tui.LookupOf | src/tui.rs:190 | the label-to-choice table; `LookupOfMeaning` and `LookupOfKeys` state its keys and values |
| Tui.BuildItems | src/tui.rs:154-192 | the label of every choice, in order, and the table from labels to choices |
| Tui.ResolveSelection | src/tui.rs:222-231 | the choices of the selected labels, in order, unknown labels dropped |
| Tui.RunSkim | src/tui.rs:139-232 | the run's outcome follows the items, the send and the picker's result |
| Tui.SkimReturnsGivenChoices | src/tui.rs:194-231 | every choice returned was given; a failed send or an abort returns nothing |
| Tui.SelectRole | src/tui.rs:36-110 | no choices gives none; a failing build of the picker's options is a Tui error with its message; otherwise the reversed choices, a unique match of a non-blank query auto-selected, else the picker's first selection |
| Detect.BaseName | src/desktop/detect.rs:162-165 | a command with no separator of its platform ('/', and '\\' on Windows) is its own base name; any other base name is the whole command or a nonempty, separator-free name |
| Detect.NormalizeNoop | src/desktop/detect.rs:145 | a command with no whitespace or '"' at either end is left as it is |
| Detect.NormalizeCommand | src/desktop/detect.rs:145 | the command trimmed of whitespace, then of '"' on both ends; `NormalizeNoop` states when it changes nothing |
| Detect.CommandUnder | src/desktop/detect.rs:145-169 | a command `<dir><sep><name>` with nothing to trim is its own normal form, its base name is `name`, and its key is `name` undecorated and lower-cased |
| Detect.BaseNameUnder | src/desktop/detect.rs:162-165 | the base name of `<dir><sep><name>`, for `sep` '/' or, on Windows, '\\', is `name` |
| Detect.UndecoratedPlain | src/desktop/detect.rs:166-168 | a name with no leading '-' and no trailing ".exe" is kept |
| Detect.UndecoratedDash | src/desktop/detect.rs:167 | a leading '-' (a login shell) is dropped |
| Detect.UndecoratedExe | src/desktop/detect.rs:168 | a trailing ".exe" is dropped |
| Detect.Undecorated | src/desktop/detect.rs:166-168 | leading '-' and a trailing ".exe" dropped; `UndecoratedPlain`, `UndecoratedDash` and `UndecoratedExe` state each case |
| Detect.BaseKey | src/desktop/detect.rs:162-169 | the lower-cased, undecorated base name of the normalised command; `CommandUnder` gives it for a path |
| Detect.TerminalForBase | src/desktop/detect.rs:171-196 | every name the table gives is one of the known terminal names |
| Detect.TerminalAppForCommand | src/desktop/detect.rs:144-197 | none for a blank command; VS Code when the path says so; Windows Terminal when the command names it; otherwise the table entry for the lower-cased, undecorated base name |
| Detect.NoSubstringRule | src/desktop/detect.rs:151-160 | a lower-cased command lacking 'v' or 'c', lacking 'w' or ' ', and not ending in 'e' is claimed by neither the VS Code rule nor the Windows Terminal rule |
| Detect.NoSubstringRuleFor | src/desktop/detect.rs:150-160 | a command lacking 'v' or 'c' and lacking 'w' or ' ', in either case, and not ending in 'e' or 'E', is claimed by no substring rule once lower-cased |
| Detect.TerminalByKey | src/desktop/detect.rs:162-196 | a normalised command no substring rule claims is looked up by its key |
| Detect.TerminalUnder | src/desktop/detect.rs:144-197 | such a command `<dir><sep><name>` maps to the table entry of its name's key |
| Detect.IsShellCommand | src/desktop/detect.rs:275-307 | true exactly for a non-blank command whose key, read with its platform's separators, is one of the fourteen shells |
| Detect.SplitWhere | src/desktop/detect.rs:331 | the split always has a piece, and no piece holds a separator |
| Detect.Capitalize | src/desktop/detect.rs:334-339 | capitalising keeps the length |
| Detect.TitleCaseIdentifier | src/desktop/detect.rs:329-347 | a value without words is returned as it is |
| Detect.SplitWhereCons | src/desktop/detect.rs:331 | a separator-free piece followed by a separator splits off first |
| Detect.SplitWhereWhole | src/desktop/detect.rs:331 | a separator-free text splits into itself |
| Detect.WordsOfJoin | src/desktop/detect.rs:331-345 | words joined by single spaces split back into the same words |
| Detect.CapitalizeWord | src/desktop/detect.rs:334-339 | capitalising keeps a word a word and is idempotent |
| Detect.WordsAreWords | src/desktop/detect.rs:331-332 | every kept piece is a non-empty run of ASCII letters and digits |
| Detect.TitleCaseIdempotent | src/desktop/detect.rs:329-347 | title-casing a title-cased value changes nothing |
| Detect.TitleCaseOfWords | src/desktop/detect.rs:329-347 | words joined by spaces title-case to the capitalised words joined by spaces |
| Detect.TitleCaseWord | src/desktop/detect.rs:329-347 | one word title-cases to itself capitalised |
| Detect.TitleCaseTwoWords | src/desktop/detect.rs:329-347 | two words around any non-alphanumeric separator become both capitalised with one space |
| Detect.StemOf | src/desktop/detect.rs:260-262 | the stem is never longer than the file name |
| Detect.AppBundleNameFromCommand | src/desktop/detect.rs:255-273 | none when the command holds no ".app/"; a name found is never blank |
| Detect.BundleFromNormalized | src/desktop/detect.rs:257-258 | none when ".app/" is not found |
| Detect.BundleDisplayName | src/desktop/detect.rs:266-272 | none exactly for a blank stem; "iTerm2" reads as "iTerm" and any other stem as itself |
| Detect.BundleNonBlank | src/desktop/detect.rs:266-268 | a bundle name is never blank |
| Detect.FindBundle | src/desktop/detect.rs:258 | with no '.' before it, the bundle's ".app/" is the first one found |
| Detect.StemOfApp | src/desktop/detect.rs:260-262 | the stem of "<name>.app" is the name |
| Detect.BundleOf | src/desktop/detect.rs:258-259 | the bundle is read off the command up to the first ".app" |
| Detect.BundleName | src/desktop/detect.rs:385-394 | `<dir>/<name>.app/<rest>` with no '.' before ".app" names the app `name`, "iTerm2" as "iTerm" |
| Detect.AppBundleOfNormalized | src/desktop/detect.rs:256 | a normalised command's bundle is read off the command itself |
| Detect.BundleOfPath | src/desktop/detect.rs:257-262 | the bundle file of `<dir>/<name>.app/<rest>` is "<name>.app" |
| Detect.BundlePrefixSlice | src/desktop/detect.rs:259 | the prefix is the path up to and including ".app" |
| Detect.BundleFromAppFile | src/desktop/detect.rs:260-272 | "<name>.app" names the app `name`, "iTerm2" as "iTerm" |
| Detect.PrefixOfBundle | src/desktop/detect.rs:260-262 | the prefix's file name is the bundle's |
| Detect.GuessGuiAppNameFromCommand | src/desktop/detect.rs:206-253 | none exactly for a blank command, a blank base or one of the twenty-one non-GUI names; otherwise the title-cased base |
| Detect.AppNameForCommand | src/desktop/detect.rs:199-204 | a known terminal wins, else the app bundle's name |
| Detect.ParentAppName | src/desktop/detect.rs:58-61 | the app name recorded for a parent: a known app, else the GUI guess |
| Detect.Fallback | src/desktop/detect.rs:85-105 | the shell's parent wins over the first parent, and there is no answer only when neither was seen |
| Detect.DetectTerminalProcess | src/desktop/detect.rs:39-106 | the loop computes the walk from the program's own pid with the real classifiers of the platform |
| Detect.WalkParentChain | src/desktop/detect.rs:42-105 | the loop, for any classifiers, computes the recursive walk with 64 steps |
| Detect.Walk | src/desktop/detect.rs:48-105 | the recursive walk, one process per step; the `Walk…` lemmas state each case and the overall answer |
| Detect.WalkStops | src/desktop/detect.rs:48-51 | a repeated pid or no steps left ends the walk with the fallback |
| Detect.WalkWithoutSnapshot | src/desktop/detect.rs:52-55 | a process without a snapshot ends the walk with the fallback |
| Detect.WalkAtApp | src/desktop/detect.rs:63-69 | a process whose command names an app is the answer, with that name |
| Detect.WalkEndsBelowInit | src/desktop/detect.rs:79-81 | after a process whose parent is 0 or 1 the walk ends with the fallback |
| Detect.WalkGoesUp | src/desktop/detect.rs:82 | otherwise the walk goes on from the parent |
| Detect.PlainPathTail | src/desktop/detect.rs:48-83 | one step up a plain path is a plain path |
| Detect.WalkFindsFirstApp | src/desktop/detect.rs:48-83 | along a loop-free path that fits in the steps, the first process whose command names an app is the answer |
| Detect.WalkKeepsFirstParent | src/desktop/detect.rs:85-105 | once a first parent is known the walk always names a process |
| Detect.WalkNone | src/desktop/detect.rs:39-106 | no process is found exactly when the program's own snapshot is missing, or it names no app and its parent is 0 or 1 |
| Detect.TerminalAppOverride | src/desktop/detect.rs:30-37 | none exactly when `ROLEMAN_TERMINAL_APP` is unset or blank; otherwise its trimmed value |
| Detect.TerminalAppFromTermProgram | src/desktop/detect.rs:309-327 | none exactly when `TERM_PROGRAM` is unset or blank |
| Detect.DetectTerminalTarget | src/desktop/detect.rs:17-28 | the pid is the walk's process's; the app name is the override, else the process's, else `TERM_PROGRAM`'s, and none only when all three are |
| DetectTests.WeztermGuiIsWezTerm | src/desktop/detect.rs:370 | "wezterm-gui" is WezTerm |
| DetectTests.ITermAppIsITerm | src/desktop/detect.rs:358-361 | "/Applications/iTerm.app/Contents/MacOS/iTerm2" is iTerm, on either platform |
| DetectTests.WarpAppIsWarp | src/desktop/detect.rs:362-365 | "/Applications/Warp.app/Contents/MacOS/Warp" is Warp |
| DetectTests.GnomeServerIsGnomeTerminal | src/desktop/detect.rs:366-369 | "/usr/bin/gnome-terminal-server" is GNOME Terminal |
| DetectTests.VsCodeElectronIsVsCode | src/desktop/detect.rs:375-381 | the Electron binary inside "Visual Studio Code.app" is Visual Studio Code |
| DetectTests.DashZshIsNotTerminal | src/desktop/detect.rs:371 | "-zsh" is not a terminal |
| DetectTests.BinZshIsShell | src/desktop/detect.rs:398 | "/bin/zsh" is a shell |
| DetectTests.DashBashIsShell | src/desktop/detect.rs:399 | "-bash" is a shell |
| DetectTests.PwshExeIsShell | src/desktop/detect.rs:400 | "pwsh.exe" is a shell |
| DetectTests.TerminalAppIsNotShell | src/desktop/detect.rs:401-403 | "/Applications/Terminal.app/Contents/MacOS/Terminal" is not a shell |
| DetectTests.WindowsCmdIsShell | src/desktop/detect.rs:282-290 | on Windows, "C:\\Windows\\System32\\cmd.exe" is a shell: its file name is "cmd.exe" |
| DetectTests.UnixCmdPathIsNotShell | src/desktop/detect.rs:282-290 | on Unix the same text is one file name, whose key is no shell |
| DetectTests.WindowsCmdIsConsoleHost | src/desktop/detect.rs:144-197 | on Windows, "C:\\Windows\\System32\\cmd.exe" is the Windows Console Host: no substring rule claims it and its key is "cmd" |
| DetectTests.WindowsTerminalExeIsWindowsTerminal | src/desktop/detect.rs:144-197 | on Windows, "C:\\WindowsApps\\WindowsTerminal.exe" is Windows Terminal, by its key "windowsterminal" |
| DetectTests.TitleCaseGhostty | src/desktop/detect.rs:422 | "ghostty" title-cases to "Ghostty" |
| DetectTests.TitleCaseWindowsTerminal | src/desktop/detect.rs:423-426 | "windows_terminal" title-cases to "Windows Terminal" |
| DetectTests.TitleCaseWezterm | src/desktop/detect.rs:427 | "wezterm" title-cases to "Wezterm" |
| DetectTests.GuessGhosttyBundle | src/desktop/detect.rs:408-411 | the executable inside "Ghostty.app" is guessed as "Ghostty" |
| DetectTests.GuessHomebrewGhostty | src/desktop/detect.rs:412-415 | "/opt/homebrew/bin/ghostty" is guessed as "Ghostty" |
| DetectTests.GuessBinZsh | src/desktop/detect.rs:416 | "/bin/zsh" is never guessed as a GUI app |
| DetectTests.GuessLaunchd | src/desktop/detect.rs:417 | "launchd" is never guessed as a GUI app |
| DetectTests.BundleGhostty | src/desktop/detect.rs:387-388 | Ghostty's executable is in the "Ghostty" bundle |
| DetectTests.BundleITerm2 | src/desktop/detect.rs:391-392 | iTerm2's executable is in the "iTerm" bundle |
| FileStore.ReadToString | src/credentials_cache.rs:32-35 | the contents exactly when the file exists and reads |
| FileStore.Disk.Write | src/credentials_cache.rs:70 | a write that succeeds replaces only that file; one that fails changes nothing |
| Macos.FirstPiece | src/desktop/macos.rs:144 | the piece is a prefix free of the separator, followed by the separator when shorter than the text |
| Macos.LastPiece | src/desktop/macos.rs:145 | the piece is a suffix free of the separator, preceded by the separator when shorter than the text |
| Macos.Authority | src/desktop/macos.rs:142-145 | there is an authority exactly when the trimmed URL holds "://", and it holds neither '/' nor '@' |
| Macos.AuthorityIn | src/desktop/macos.rs:143-145 | there is an authority exactly when the text holds "://", and it holds neither '/' nor '@' |
| Macos.HostOfAuthority | src/desktop/macos.rs:147-152 | a bracketed authority yields its text up to the first ']' (none without one); any other yields the prefix before its first ':' |
| Macos.UrlHost | src/desktop/macos.rs:142-153 | no host without "://" in the trimmed URL; otherwise the host of its authority |
| Macos.SplitAtScheme | src/desktop/macos.rs:143 | a URL whose scheme has no ':' splits at its scheme's "://" |
| Macos.AuthorityOfParts | src/desktop/macos.rs:142-145 | for `scheme://userinfo@hostport/path` the authority is `hostport` |
| Macos.AuthorityInParts | src/desktop/macos.rs:143-145 | the same, for a URL already trimmed |
| Macos.SegmentOfRemainder | src/desktop/macos.rs:144 | the text before the path's '/' is what precedes the path |
| Macos.LastPieceAfterUserinfo | src/desktop/macos.rs:145 | the text after the userinfo's last '@' is the host and port |
| Macos.UrlHostOfParts | src/desktop/macos.rs:142-153 | for `scheme://userinfo@host:port/path` with a plain host, the host is returned |
| Macos.UrlHostOfBracketed | src/desktop/macos.rs:147-150 | for `scheme://userinfo@[host]:port/path`, the bracketed text is returned |
| Macos.HostOfPlain | src/desktop/macos.rs:152 | an authority not starting with '[' has the host before its port's ':' |
| Macos.HostOfBracketed | src/desktop/macos.rs:147-150 | a bracketed authority has the host between the brackets |
| Macos.NoColonNoHost | src/desktop/macos.rs:235 | a URL without ':' (such as "not-a-url") has no host |
| Macos.LoopbackHostLength | src/desktop/macos.rs:134-140 | a loopback host has 9 or 3 characters |
| Macos.IsLoopbackAuthUrl | src/desktop/macos.rs:134-140 | the URL test; `LoopbackOfParts`, `NoSchemeNotLoopback` and `LongHostNotLoopback` state when it holds |
| Macos.LoopbackOfParts | src/desktop/macos.rs:134-140 | a URL built from parts is loopback exactly when its host is "localhost" in any case, "127.0.0.1" or "::1" |
| Macos.NoSchemeNotLoopback | src/desktop/macos.rs:135-137 | a URL without "://" is never loopback |
| Macos.LongHostNotLoopback | src/desktop/macos.rs:244-246 | a host longer than "localhost", such as "localhost.evil.example", is never loopback |
| Macos.DeniedByStderr | src/desktop/macos.rs:200-210 | any of the four refusal markers in lower-cased standard error is a refusal, whatever standard output says |
| Macos.OsascriptPermissionDenied | src/desktop/macos.rs:200-210 | the refusal-marker test on the combined, lower-cased output |
| Macos.DeniedByStdout | src/desktop/macos.rs:200-210 | any of the four refusal markers in lower-cased standard output is a refusal, whatever standard error says |
| Macos.DeniedExample | src/desktop/macos.rs:250-259 | the failed run with error -1743 on standard error is a refusal |
| Macos.NoMarkerLetters | src/desktop/macos.rs:205-209 | text without a '1', 'p', 'w' or 'y' in either case holds no refusal marker |
| Macos.UnrelatedErrorExample | src/desktop/macos.rs:262-269 | the failed run with error -2753 on standard error is not a refusal |
| Macos.OsascriptFailure | src/desktop/macos.rs:155-168 | a failed run's error is the refusal exactly when its output says so, and the output's error otherwise |
| Macos.IsAutomationPermissionDenied | src/desktop/macos.rs:216-218 | exactly the refusal's `Config` message; `OsascriptFailure` and `StatusDeniedIff` connect it to the run's output |
| Macos.OsascriptSpawnError | src/desktop/macos.rs:186-198 | a run that could not start gives a `Config` error "failed to run osascript: …", which is not the refusal |
| Macos.OsascriptStatus | src/desktop/macos.rs:155-168 | success exactly when the run started and succeeded; otherwise the failure's or the spawn's error |
| Macos.OsascriptCapture | src/desktop/macos.rs:170-184 | the run's standard output exactly when the status is success, and the status's error otherwise |
| Macos.StatusDeniedIff | src/desktop/macos.rs:155-168 | a failed status is the refusal exactly when the run started and its output reports a refusal |
| Macos.FrontmostTabUrl | src/desktop/macos.rs:94-128 | the trimmed output, none when it is blank, exactly when the script succeeds; the script's error otherwise |
| Macos.AfterFailure | src/desktop/macos.rs:24-31 | a failed script records false exactly for a refusal, and never records true nor sends the close key |
| Macos.CloseAuthBrowserTab | src/desktop/macos.rs:23-49 | the key is sent exactly for a loopback front tab; true is recorded exactly when a URL was read; false exactly when the result is the refusal; success unless the read or the close failed |
| Macos.CloseLoopbackTab | src/desktop/macos.rs:38-46 | records true and sends the key, then records false exactly for a refused close; the result is the close's |
| Macos.ShouldWarnClosePermissionPrompt | src/desktop/macos.rs:71-73 | warn exactly while the close is not authorised |
| Macos.DeniedReadRecordsFalse | src/desktop/macos.rs:24-31 | a refused read records only false, returns the refusal and closes nothing |
| Macos.OtherTabLeftOpen | src/desktop/macos.rs:33-37 | a URL that is not loopback records true, returns success and is left open |
| Macos.RecordedFalseIsRefusal | src/desktop/macos.rs:23-49 | when the last flag recorded is false, the result is the refusal |
| Macos.FocusTerminalApp | src/desktop/macos.rs:51-62 | success exactly when an app name was detected and `open -a` for it succeeded; otherwise the fixed `Config` error |
| Macos.WarnUntilAuthorized | src/desktop/macos.rs:71-73 | the prompt is warned about while no permissions file exists, and not after true was saved |
| Macos.ClosePermissionDeniedHelp | src/desktop/macos.rs:75-80 | the help text exactly for the refusal error, none for any other |
| Permissions.PermissionsCachePath | src/desktop/permissions.rs:72-74 | fails with MissingHome exactly when the cache directory does; otherwise the path ends with "desktop-permissions.json" |
| Permissions.LoadPermissionsCases | src/desktop/permissions.rs:41-50 | a missing file is the default record; an unreadable or unparsable one is a Config error; a parsable one is what it holds |
| Permissions.LoadPermissions | src/desktop/permissions.rs:41-50 | the load of the permission record; `LoadPermissionsCases` states each case |
| Permissions.IsAuthorized | src/desktop/permissions.rs:17-25 | the loaded flag, false when the load fails; `NoHomeNotAuthorized`, `MissingOrInvalidNotAuthorized` and `SetThenRead` state it |
| Permissions.NoHomeNotAuthorized | src/desktop/permissions.rs:17-25 | without a cache directory the load fails with MissingHome and the flag reads false |
| Permissions.MissingOrInvalidNotAuthorized | src/desktop/permissions.rs:111-134 | a missing, unreadable or invalid file reads as not authorised |
| Permissions.RecordToSet | src/desktop/permissions.rs:27-35 | the record saved holds exactly the flag being set |
| Permissions.SaveLoadRoundTrip | src/desktop/permissions.rs:137-153 | a saved record loads back as itself |
| Permissions.SetThenRead | src/desktop/permissions.rs:27-39 | after a successful set the flag reads as set, whatever the file held before |
| Permissions.SetTrueThenFalse | src/desktop/permissions.rs:86-108 | no file reads false; after setting true it reads true; after setting false it reads false |
| Permissions.SavePermissions | src/desktop/permissions.rs:52-70 | succeeds exactly when the path resolves, the directory is made, the record encodes and the write works; the files change only then, and only that file |
| Permissions.SaveAt | src/desktop/permissions.rs:54-69 | a failing step is a Config error with the files unchanged; success writes the encoding to the path |
| Permissions.SetAuthorized | src/desktop/permissions.rs:27-39 | the files end as after saving the record with the new flag; any error is dropped |
| RolesCache.RolemanCacheDir | src/roles_cache.rs:109-116 | `XDG_CACHE_HOME/roleman`, else `HOME/.cache/roleman`, else MissingHome |
| RolesCache.CacheFilename | src/roles_cache.rs:118-123 | "roles-", then the start URL's digest, then ".json" |
| RolesCache.CachePath | src/roles_cache.rs:40 | the cache file of a start URL under the cache directory |
| RolesCache.CacheFilenameCollision | src/roles_cache.rs:118-123 | two start URLs share a file exactly when their digests are equal |
| RolesCache.ToChoices | src/roles_cache.rs:59-67 | the stored roles read back as choices, field for field and in order |
| RolesCache.ToCachedRoles | src/roles_cache.rs:80-87 | the choices as stored, field for field and in order |
| RolesCache.ChoicesRoundTrip | src/roles_cache.rs:59-87 | storing and reading back gives the same list |
| RolesCache.Age | src/roles_cache.rs:58 | the elapsed seconds, 0 for a record stamped in the future |
| RolesCache.LoadCachedRolesWithAge | src/roles_cache.rs:36-69 | MissingHome exactly when no cache directory is known; otherwise none for a missing, unreadable or undecodable file, else the stored choices and their age |
| RolesCache.LoadCachedRoles | src/roles_cache.rs:26-34 | the any-age load, kept only when the age is at most 24 hours |
| RolesCache.SaveCachedRoles | src/roles_cache.rs:71-93 | a missing home, a directory that cannot be made and an encode or write failure each give their error and leave the files alone; otherwise only that file is replaced |
| RolesCache.SaveLoadRoundTrip | src/roles_cache.rs:131-166 | saved choices load back in order, aged by the time since the save |
| RolesCache.StaleRecordOnlyWithAge | src/roles_cache.rs:168-208 | a record a minute past the TTL is served by the any-age loader only; one exactly at the TTL is still fresh |
| RolesCache.FormatAgeReadsBack | src/roles_cache.rs:95-107 | reading the rendering back gives the age, truncated to whole minutes from one hour on |
| RolesCache.AgeParts | src/roles_cache.rs:96-99 | the hours, minutes and seconds shown add back up to the age |
| RolesCache.FormatAgeHoursShape | src/roles_cache.rs:100-101 | from one hour on the text is "<h>h <m>m" |
| RolesCache.FormatAgeMinutesShape | src/roles_cache.rs:102-103 | from one minute to one hour the text is "<m>m <s>s" |
| RolesCache.FormatAgeExamples | src/roles_cache.rs:210-214 | 5 s, 70 s and 3650 s render as "5s", "1m 10s" and "1h 0m" |
| RolesCache.FormatAge | src/roles_cache.rs:95-107 | the compact age text; `FormatAgeReadsBack` and the shape lemmas state its content |
| Linux.ActiveWindowTitle | src/desktop/linux.rs:108-117 | the title is the trimmed output exactly when the `xdotool` run succeeds, and that run's error otherwise |
| Linux.NameMentionsLoopback | src/desktop/linux.rs:119-122 | a title holding "127.0.0.1" or "localhost" mentions loopback |
| Linux.MentionsWithin | src/desktop/linux.rs:119-122 | text around a title that mentions loopback does not change that |
| Linux.NoOneNoHNotLoopback | src/desktop/linux.rs:119-122 | a title with no '1' and no 'h' in either case does not mention loopback |
| Linux.TitleMentionsLoopback | src/desktop/linux.rs:119-122 | the title test; `NameMentionsLoopback` and `NoOneNoHNotLoopback` state when it holds and when it cannot |
| Linux.TitleWeakerThanHost | src/desktop/linux.rs:119-122 | a URL whose long host merely contains "localhost" passes the Linux title test but not the macOS host test |
| Linux.CloseAuthBrowserTab | src/desktop/linux.rs:18-33 | the key is sent exactly when the title is read and mentions loopback; a title error is returned as it is; otherwise the result is success or the key run's status |
| Linux.OtherWindowLeftAlone | src/desktop/linux.rs:20-23 | with a title that does not mention loopback, the close succeeds and sends nothing whatever the key run would do |
| Linux.WindowPatternCases | src/desktop/linux.rs:98-106 | the four known apps map to their window class and every other name is its own pattern |
| Linux.WindowPatternIdempotent | src/desktop/linux.rs:98-106 | mapping a pattern again changes nothing |
| Linux.WindowPatternForApp | src/desktop/linux.rs:98-106 | the window-class table; `WindowPatternCases` states it case by case |
| Linux.ActivateWindowForApp | src/desktop/linux.rs:73-96 | Ok iff `xdotool` or `wmctrl` succeeds, and when `xdotool` fails or cannot start the result is `wmctrl`'s status |
| Linux.XdotoolFirst | src/desktop/linux.rs:74-86 | once `xdotool` succeeds, `wmctrl` plays no part |
| Linux.FocusTerminalApp | src/desktop/linux.rs:35-71 | Ok iff the pid route or the app-pattern route succeeds; otherwise the fixed Linux message |
| Linux.PidRouteFirst | src/desktop/linux.rs:37-41 | when the pid's window is activated the app name plays no part |
| Linux.EmptyTargetFails | src/desktop/linux.rs:50-52 | a target with neither pid nor app name cannot be focused |
| Windows.ProcessNameKnown | src/desktop/windows.rs:60-70 | exactly the six known apps have a process name |
| Windows.ProcessNameInjective | src/desktop/windows.rs:60-70 | no two apps share a process name |
| Windows.ProcessNameForApp | src/desktop/windows.rs:60-70 | the process-name table; `ProcessNameKnown` and `ProcessNameInjective` state its domain and that it is one-to-one |
| Windows.PowershellSingleQuote | src/desktop/windows.rs:83-85 | the quoted text is longer by one character per quote |
| Windows.CollapseDoubledQuotes | src/desktop/windows.rs:83-85 | reading a quoted body back never makes it longer |
| Windows.QuoteRoundTrip | src/desktop/windows.rs:83-85 | reading the quoted text back gives the value |
| Windows.QuoteDoublesQuotes | src/desktop/windows.rs:83-85 | the quoted text holds twice as many quotes |
| Windows.QuoteNoop | src/desktop/windows.rs:83-85 | text without a quote is left as it is |
| Windows.ProcessNamesNeedNoQuoting | src/desktop/windows.rs:52-58 | every known process name goes into the script unchanged |
| Windows.FocusTerminalApp | src/desktop/windows.rs:24-58 | Ok iff the pid route succeeds or the app has a process name whose quoted run succeeds; otherwise the fixed Windows message |
| Windows.UnknownAppSkipsName | src/desktop/windows.rs:31-36 | an app without a process name is never looked up by name |
| Windows.PidRouteFirst | src/desktop/windows.rs:26-30 | when the pid's window comes forward the app name plays no part |
| Unsupported.Unsupported | src/desktop/unsupported.rs:13-27 | every action fails with the fixed "not supported on this operating system" Config error |
| MockServer.Get | src/mock_server.rs:156-158 | a field exactly when the payload is an object holding the key, and it is that key's value |
| MockServer.StringField | src/mock_server.rs:156-159 | a string exactly when the payload has the key and its value is a string, and it is that string |
| MockServer.ParseJson | src/mock_server.rs:209-214 | an empty body is the empty object; any other body is what the decoder makes of it |
| MockServer.EmptyBodyHasNoKeys | src/mock_server.rs:209-212 | an empty body parses, and has no key that could decide a route |
| MockServer.PairKey | src/mock_server.rs:283 | a key exactly when the pair has an '=', and it is the text before the first one |
| MockServer.PairValue | src/mock_server.rs:283 | a value exactly when the pair has a key, and key, '=' and value rebuild the pair |
| MockServer.FirstIndexFrom | src/mock_server.rs:289-293 | the first accepted pair from the start index on, none when no pair there is accepted |
| MockServer.QueryValue | src/mock_server.rs:287-295 | none without a query; a value exactly when the query has a wanted key, and it is the raw value of the first pair in order whose key is wanted |
| MockServer.BarePairIgnored | src/mock_server.rs:280-285 | a leading pair without an '=' never counts as a key, even when its text is one |
| MockServer.BarePairValueIgnored | src/mock_server.rs:287-295 | a leading pair without an '=' does not change the value found |
| MockServer.HasQueryParam | src/mock_server.rs:280-285 | some pair with an '=' has a wanted key; `BarePairIgnored` states that bare pairs never count |
| MockServer.FirstIndexShift | src/mock_server.rs:289-293 | scanning past a first pair finds the same pair one place further on |
| MockServer.SinglePairValue | src/mock_server.rs:287-295 | a query of one pair `key=value` with a wanted key gives back the raw value |
| MockServer.KeyOfPair | src/mock_server.rs:283 | splitting `key=value` with no '=' in the key gives back key and value |
| MockServer.TargetNameServed | src/mock_server.rs:120-204 | every name the fallback chain makes up is answered, as the operation it names |
| MockServer.ResolveTarget | src/mock_server.rs:238-278 | a non-empty header is returned as it is; an empty one yields the fallback chain's name, which is always served |
| MockServer.ResolveOperation | src/mock_server.rs:242-277 | the fallback chain for an empty target header; `PayloadBeforeUri`, `ClientKeysFirst`, `AccountIdRoutes`, `QueryRoleNameFirst` and `DefaultListAccounts` state its order |
| MockServer.OperationOf | src/mock_server.rs:120-205 | the operation a target name is answered as; `TargetNameServed` states every fallback name has one |
| MockServer.PayloadBeforeUri | src/mock_server.rs:242-259 | a payload key that decides the route makes the query and the path irrelevant |
| MockServer.ClientKeysFirst | src/mock_server.rs:242-244 | "clientName" or "clientType" routes to RegisterClient whatever else the payload holds |
| MockServer.AccountIdRoutes | src/mock_server.rs:251-256 | with no earlier key, an account id lists its roles, and with a role name fetches credentials |
| MockServer.QueryRoleNameFirst | src/mock_server.rs:260-263 | with no deciding payload key, a query role name routes to GetRoleCredentials over the account id and the path |
| MockServer.DefaultListAccounts | src/mock_server.rs:268-277 | with nothing in the payload or query, a path without "credential" or "role" routes to ListAccounts |
| MockServer.RolesFor | src/mock_server.rs:162-166 | the fixture's roles of a known account, and none for an unknown one |
| MockServer.DefaultAccountsHaveRoles | src/mock_server.rs:216-236 | every account of the default fixture has at least one role |
| MockServer.AccountIdOf | src/mock_server.rs:156-161 | the payload's string "accountId", else the query's "account_id" or "accountId", else empty |
| MockServer.RoleNameOf | src/mock_server.rs:183-188 | the payload's string "roleName", else the query's "role_name" or "roleName", else empty |
| MockServer.HandleRoot | src/mock_server.rs:103-207 | an undecodable body is a 400 with the decoder's message; otherwise a target no operation answers is a 400 "unknown target: …", a registration expires a day after now, a device authorization and a token are answered with their fixed replies, the account list is the fixture's, credentials expire eight hours after now, a role list holds the fixture roles of the request's account |
| MockServer.EmptyTargetNeverUnknown | src/mock_server.rs:109-205 | a decodable request without a target header is never a 400 |
| MockServer.UnknownAccountNoRoles | src/mock_server.rs:155-175 | listing the roles of an account the fixture does not know gives an empty list, not an error |

## Left out

- **Network, SDK calls and subprocesses.** These are supplied outcomes, and sleeps are recorded as delays:
  - the AWS SDK and AWS CLI calls;
  - the tokio sleeps;
  - the `osascript`, `xdotool`, `wmctrl`, `open` and `powershell` runs;
  - opening the browser.

  src/aws_cli.rs is not part of this model beyond its rule that a non-zero exit becomes `AwsCliOutput`.
- **Clocks, environment variables and the process snapshot.** These are parameters. `sysinfo`'s process table is an abstract pid table.
- **History.HistoryLog.RecordSelection.** The log is modelled as a sequence of lines that each end in '\n'. A history file whose last line lacks its '\n' is not represented: on such a file `writeln!` would join the new entry onto that line, and the joined line would then be skipped as undecodable.
- **Encodings.** serde JSON/TOML encoding and decoding, SHA-1 (FIPS 180-4) and RFC 3339 parsing and formatting are supplied deterministic functions. Their own correctness is not modelled.
- **Lower-casing.** `to_lowercase` and `to_ascii_lowercase` map ASCII letters only. Unicode case mapping is out of scope.
- **History score arithmetic.** In `History.Weigh` the floating-point `exp` and `ln` of src/history.rs:196-219 are supplied functions (`History.Scoring`), and the weighted sum is computed over exact reals without `f64` rounding. The recency term is applied to each key's smallest age, which is the same as the largest `exp(-age / 14 days)` because `exp` is monotone. The sort is proved for every score.
- **Literal test URLs.** The concrete URLs of the macOS host tests are covered by general lemmas about URLs built from parts (`Macos.UrlHostOfParts`, `Macos.LoopbackOfParts`, `Macos.LongHostNotLoopback`, `Macos.NoColonNoHost`), not evaluated literally.
- **macOS close effects.** `Macos.CloseAuthBrowserTab` takes the outcomes of the tab read and the close script. It returns the flag writes it makes, in order, as a log; the log is not applied to the permissions file. The write itself is `Permissions.SetAuthorized`.
- **Desktop dispatch and trait defaults.**
  - `permission_requirements` is two constants.
  - The defaults of the `Desktop` trait in src/desktop/mod.rs and the cfg-based OS dispatch are not part of this model.
- **Script text.** Two scripts are not modelled beyond the status of their run:
  - the Windows `close_auth_browser_tab` script (one PowerShell run, whose status is `DesktopUtil.RunStatus`);
  - the bodies of the `activate_window_for_*` PowerShell scripts.
- **Shell hooks.** src/shell/bash.rs and src/shell/zsh.rs are not part of this model: they are static hook script text plus an rc path under HOME.
- **Runtime glue in src/main.rs.** The clap parsing, tracing setup, tokio runtime, stdin prompts and rc-file reading and writing are not modelled. The prompt answer check and the content assembly are.
- **Mock server runtime.** The axum serving, the shutdown handle, the JSON fixture texts and the epoch clock are left out. The clock is the `nowSeconds`/`nowMillis` parameters of `MockServer.HandleRoot`.
- **The skim UI.** The UI itself is not modelled: its fuzzy matcher is a supplied predicate, and its run is a supplied outcome.
- **src/config.rs and src/ui.rs.** These are not part of this model: one is TOML load and save, the other terminal colours and a spinner.
- **End-to-end suite.** tests/e2e.rs, tests/bin/mock-server.rs and src/test_support.rs are not part of this model.
- **Lib.RefreshUntilVisible.** It requires that the supplied fetches eventually show a visible role (`RefreshEnds`). The source would loop forever otherwise, which a terminating method cannot express.
- **SsoCache.DeviceAuthorization.** It requires that the supplied clock eventually passes the deadline or a poll ends the loop (`PollingEnds`), for the same reason.
- **AwsSdk.Paginate.** It takes the finite sequence of pages the service returns. A service that returns a next-page token forever is not modelled.
- **SsoCache.LoadValidCache.** It applies the corrected expiry test, not the `u64` cast as written (see "## Findings"). `SsoCache.LoadAgreesAfterEpoch` and `SsoCache.PreEpochEntrySelected` relate the two.
- **SsoCache.Finish.** The panic of `OffsetDateTime::from` on an expiry past 9999-12-31T23:59:59Z is the outcome `SsoCache.Panicked`, which `SsoCache.DeviceAuthorization` returns as well. What the panic does to the process is not modelled.
- **SsoCache.CheckedAddOr.** The latest time a `SystemTime` can hold depends on the platform, so it is the parameter `maxTime`. Times are whole seconds.
- **Paths.FileName.** On Windows it splits at both '\\' and '/'. It does not read drive prefixes ("C:") or UNC prefixes ("\\\\server\\share") as Rust's `Path` does. For example, a drive-relative "C:foo" gives "C:foo" where Rust gives "foo". For full paths such as "C:\\Windows\\System32\\cmd.exe" both give the same file name.
- **Paths.JoinPath.** It always joins with '/'. Only cache and history paths are joined, and their separator is never read back.
- **Detect.DetectTerminalProcess.** It treats process ids as unbounded naturals rather than `u32`. Only comparisons and table lookups use them.

## Findings

| source | as written | input that shows it | evidently intended | confidence | as-written member | corrected member |
|---|---|---|---|---|---|---|
| src/sso_cache.rs:142 | the parsed expiry's Unix timestamp is cast with `as u64`, so a pre-1970 expiry wraps to a huge value and the token never expires | `expiresAt` = "1969-12-31T23:59:59Z" (timestamp -1), at any current time | the token is expired once the current time has reached the expiry | not executed | SsoCache.PreEpochNeverExpires | SsoCache.IsExpiredAgreesAfterEpoch |
