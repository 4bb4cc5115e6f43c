/**
 * The AWS SSO SDK wrapper (src/aws_sdk.rs): bounded retries with exponential
 * backoff on throttling, the throttling classifier, the diagnostic text of an
 * SDK error, and `next_token` pagination of account and role listings.
 *
 * A remote call is a supplied outcome: `call(k)` is what the k-th attempt
 * (counting from 0) returns. Sleeps are recorded as their length in
 * milliseconds instead of being slept.
 */
module AwsSdk {
  import opened Wrappers
  import opened Errors
  import opened Strings
  import opened Seqs
  import opened Model

  const U64Max: nat := 0xFFFF_FFFF_FFFF_FFFF

  /** What an SDK error exposes: its `Display` and `Debug` forms and its metadata. */
  datatype SdkError = SdkError(
    display: string, debug: string,
    code: Option<string>, message: Option<string>, requestId: Option<string>)

  datatype Outcome<T> = Success(value: T) | Failure(err: SdkError)

  // ---------------------------------------------------------------------------
  // format_sdk_error

  /** One ` | name=value` piece, present only when the metadata field is. */
  function Field(name: string, value: Option<string>): string
  {
    match value
    case Some(v) => " | " + name + "=" + v
    case None => ""
  }

  function BaseText(e: SdkError): string
  {
    if e.display == "service error" then e.debug else e.display
  }

  /** The `name=value` part for a present metadata field, none for an absent one. */
  function Part(name: string, value: Option<string>): seq<string>
  {
    match value
    case Some(v) => [name + "=" + v]
    case None => []
  }

  /**
   * `format_sdk_error`: the base text (the debug form when the display text
   * is the generic "service error"), then `code=`, `message=` and
   * `request_id=` for the fields that are present, in that order, joined by
   * " | ".
   */
  function FormatSdkError(e: SdkError): (r: string)
    ensures r == BaseText(e) + Field("code", e.code) + Field("message", e.message)
                 + Field("request_id", e.requestId)
  {
    var parts := [BaseText(e)] + (Part("code", e.code) + Part("message", e.message) + Part("request_id", e.requestId));
    JoinFields(BaseText(e), Part("code", e.code), Part("message", e.message), Part("request_id", e.requestId));
    PartSuffix("code", e.code);
    PartSuffix("message", e.message);
    PartSuffix("request_id", e.requestId);
    Join(parts, " | ")
  }

  lemma {:induction false} JoinFields(base: string, c: seq<string>, m: seq<string>, q: seq<string>)
    ensures Join([base] + (c + m + q), " | ") == base + (Suffixes(c) + Suffixes(m) + Suffixes(q))
  {
    var tail := c + m + q;
    JoinPrepend(base, tail);
    SuffixesThree(c, m, q);
  }

  lemma {:induction false} SuffixesThree(c: seq<string>, m: seq<string>, q: seq<string>)
    ensures Suffixes(c + m + q) == Suffixes(c) + Suffixes(m) + Suffixes(q)
  {
    SuffixesAppend(c + m, q);
    SuffixesAppend(c, m);
  }

  lemma {:induction false} PartSuffix(name: string, value: Option<string>)
    ensures Suffixes(Part(name, value)) == Field(name, value)
  {
  }

  /** `Join([b] + tail)` is `b` followed by " | x" for each x of `tail`. */
  function Suffixes(tail: seq<string>): string
    decreases |tail|
  {
    if tail == [] then [] else " | " + tail[0] + Suffixes(tail[1..])
  }

  lemma {:induction false} JoinPrepend(b: string, tail: seq<string>)
    ensures Join([b] + tail, " | ") == b + Suffixes(tail)
    decreases |tail|
  {
    if tail != [] {
      JoinPrepend(tail[0], tail[1..]);
      assert [tail[0]] + tail[1..] == tail;
      assert ([b] + tail)[1..] == tail;
    }
  }

  lemma {:induction false} SuffixesAppend(a: seq<string>, b: seq<string>)
    ensures Suffixes(a + b) == Suffixes(a) + Suffixes(b)
    decreases |a|
  {
    if a != [] {
      assert (a + b)[1..] == a[1..] + b;
      SuffixesAppend(a[1..], b);
    } else {
      assert a + b == b;
    }
  }

  /** The base text leads the message; a generic "service error" is replaced by the debug form. */
  lemma {:induction false} FormatSdkErrorBase(e: SdkError)
    ensures StartsWith(FormatSdkError(e), if e.display == "service error" then e.debug else e.display)
  {
  }

  // ---------------------------------------------------------------------------
  // is_throttle_error

  /** `is_throttle_error`, as written: a throttling code, or a throttling phrase in the message. */
  function IsThrottleError(code: Option<string>, message: string): bool
  {
    if code.Some? && code.value in ["TooManyRequestsException", "ThrottlingException", "Throttling"] then true
    else
      (Contains(message, "TooManyRequests")
       || Contains(message, "TooManyRequestsException")
       || Contains(message, "Throttling")
       || Contains(message, "Rate exceeded"))
  }

  predicate IsThrottleCode(code: Option<string>)
  {
    code == Some("TooManyRequestsException") || code == Some("ThrottlingException") || code == Some("Throttling")
  }

  predicate HasThrottlePhrase(message: string)
  {
    Contains(message, "TooManyRequests") || Contains(message, "Throttling") || Contains(message, "Rate exceeded")
  }

  /**
   * An error is throttling iff its code is one of the three throttling codes
   * or its message carries one of the three phrases; the separate
   * "TooManyRequestsException" message test adds nothing, and any other
   * code falls through to the message tests.
   */
  lemma {:induction false} ThrottleIff(code: Option<string>, message: string)
    ensures IsThrottleError(code, message) <==> IsThrottleCode(code) || HasThrottlePhrase(message)
  {
    if Contains(message, "TooManyRequestsException") {
      PrefixContained("TooManyRequestsException", "TooManyRequests");
      ContainsTransitive(message, "TooManyRequestsException", "TooManyRequests");
    }
  }

  /** An unrecognised code still classifies by its message. */
  lemma {:induction false} UnknownCodeFallsThrough(code: string, message: string)
    requires !IsThrottleCode(Some(code))
    ensures IsThrottleError(Some(code), message) == HasThrottlePhrase(message)
  {
    ThrottleIff(Some(code), message);
  }

  // ---------------------------------------------------------------------------
  // retry_sdk

  /**
   * The backoff before the attempt after `attempt`: 500 ms times
   * `2_u64.pow(attempt - 1)`, saturating at the u64 maximum. The exponent is
   * cast to u32 and the power wraps to 0 once it reaches 64 (release build).
   */
  function Backoff(attempt: nat): (ms: nat)
    requires attempt >= 1
    ensures ms <= U64Max
  {
    var e := (attempt - 1) % 0x1_0000_0000;
    var pow := if e < 64 then Pow2(e) else 0;
    if 500 * pow > U64Max then U64Max else 500 * pow
  }

  function Pow2(e: nat): (p: nat)
    ensures p >= 1
  {
    if e == 0 then 1 else 2 * Pow2(e - 1)
  }

  /** The backoffs after attempts `first`, `first + 1`, ... (`count` of them). */
  function BackoffSchedule(first: nat, count: nat): (s: seq<nat>)
    requires first >= 1
    ensures |s| == count
    decreases count
  {
    if count == 0 then [] else [Backoff(first)] + BackoffSchedule(first + 1, count - 1)
  }

  /** With five attempts a fully throttled listing sleeps 500, 1000, 2000 and 4000 ms. */
  lemma {:induction false} BackoffValues()
    ensures BackoffSchedule(1, 4) == [500, 1000, 2000, 4000]
  {
    FirstBackoffs();
    assert BackoffSchedule(4, 1) == [4000];
    assert BackoffSchedule(3, 2) == [2000] + [4000];
    assert BackoffSchedule(2, 3) == [1000] + [2000, 4000];
    assert BackoffSchedule(1, 4) == [500] + [1000, 2000, 4000];
  }

  lemma {:induction false} FirstBackoffs()
    ensures Backoff(1) == 500 && Backoff(2) == 1000 && Backoff(3) == 2000 && Backoff(4) == 4000
  {
    assert Pow2(1) == 2 && Pow2(2) == 4 && Pow2(3) == 8;
  }

  /** The loop retries an error exactly when its code and formatted message classify it as throttling. */
  predicate Retryable(err: SdkError)
  {
    IsThrottleError(err.code, FormatSdkError(err))
  }

  /** The trace of a retried call: its result, how many calls were made and the sleeps between them. */
  datatype Run<T> = Run(result: Result<T>, calls: nat, sleeps: seq<nat>)

  /**
   * What `retry_sdk` does from attempt number `attempt` (1-based) on, when
   * `retryable` tells the errors worth another attempt (`Retryable` in
   * `retry_sdk` itself).
   */
  function RetryFrom<T>(call: nat -> Outcome<T>, retryable: SdkError -> bool, maxAttempts: nat, attempt: nat): (run: Run<T>)
    requires attempt >= 1
    ensures run.calls >= 1 && |run.sleeps| == run.calls - 1
    decreases maxAttempts - attempt
  {
    match call(attempt - 1)
    case Success(v) => Run(Ok(v), 1, [])
    case Failure(err) =>
      if attempt >= maxAttempts || !retryable(err) then Run(Err(AwsSdk(FormatSdkError(err))), 1, [])
      else
        var rest := RetryFrom(call, retryable, maxAttempts, attempt + 1);
        Run(rest.result, rest.calls + 1, [Backoff(attempt)] + rest.sleeps)
  }

  /**
   * `retry_sdk`: calls until success, a non-throttling error, or
   * `maxAttempts` attempts, sleeping `Backoff(k)` after the k-th throttled
   * attempt. Returns the result, the number of calls and the sleeps.
   */
  method RetrySdk<T>(call: nat -> Outcome<T>, maxAttempts: nat) returns (r: Result<T>, calls: nat, sleeps: seq<nat>)
    ensures Run(r, calls, sleeps) == RetryFrom(call, Retryable, maxAttempts, 1)
  {
    var attempt := 1;
    sleeps := [];
    while true
      invariant attempt >= 1
      invariant attempt == |sleeps| + 1
      invariant RetryFrom(call, Retryable, maxAttempts, 1) == Prefix(sleeps, RetryFrom(call, Retryable, maxAttempts, attempt))
      decreases maxAttempts - attempt
    {
      match call(attempt - 1)
      case Success(v) =>
        r, calls := Ok(v), attempt;
        return;
      case Failure(err) =>
        var message := FormatSdkError(err);
        if attempt >= maxAttempts || !IsThrottleError(err.code, message) {
          r, calls := Err(AwsSdk(message)), attempt;
          return;
        }
        var backoff := Backoff(attempt);
        PrefixStep(sleeps, backoff, RetryFrom(call, Retryable, maxAttempts, attempt + 1));
        sleeps := sleeps + [backoff];
        attempt := attempt + 1;
    }
  }

  /** The run obtained by putting `done` sleeps (and as many calls) in front of `run`. */
  function Prefix<T>(done: seq<nat>, run: Run<T>): Run<T>
  {
    Run(run.result, run.calls + |done|, done + run.sleeps)
  }

  lemma {:induction false} PrefixStep<T>(done: seq<nat>, s: nat, run: Run<T>)
    ensures Prefix(done, Run(run.result, run.calls + 1, [s] + run.sleeps)) == Prefix(done + [s], run)
  {
    assert done + ([s] + run.sleeps) == (done + [s]) + run.sleeps;
  }

  /** A successful first call is returned at once: one call, no sleep. */
  lemma {:induction false} RetrySuccessImmediate<T>(call: nat -> Outcome<T>, retryable: SdkError -> bool, maxAttempts: nat)
    requires call(0).Success?
    ensures RetryFrom(call, retryable, maxAttempts, 1) == Run(Ok(call(0).value), 1, [])
  {
  }

  /** A non-throttling error ends the loop after exactly one call with `AwsSdk(message)`. */
  lemma {:induction false} RetryNonThrottleStops<T>(call: nat -> Outcome<T>, retryable: SdkError -> bool, maxAttempts: nat)
    requires call(0).Failure?
    requires !retryable(call(0).err)
    ensures RetryFrom(call, retryable, maxAttempts, 1) == Run(Err(AwsSdk(FormatSdkError(call(0).err))), 1, [])
  {
  }

  predicate Throttled<T>(retryable: SdkError -> bool, o: Outcome<T>)
  {
    o.Failure? && retryable(o.err)
  }

  /**
   * When every call is throttled, `n >= 1` attempts make exactly `n` calls
   * and `n - 1` sleeps growing by `Backoff`, and fail with the last error.
   */
  lemma {:induction false} RetryAllThrottled<T>(call: nat -> Outcome<T>, retryable: SdkError -> bool, maxAttempts: nat, attempt: nat)
    requires 1 <= attempt <= maxAttempts
    requires forall k {:trigger Throttled(retryable, call(k))} :: attempt - 1 <= k < maxAttempts ==> Throttled(retryable, call(k))
    ensures RetryFrom(call, retryable, maxAttempts, attempt).calls == maxAttempts - attempt + 1
    ensures RetryFrom(call, retryable, maxAttempts, attempt).sleeps == BackoffSchedule(attempt, maxAttempts - attempt)
    ensures call(maxAttempts - 1).Failure?
    ensures RetryFrom(call, retryable, maxAttempts, attempt).result == Err(AwsSdk(FormatSdkError(call(maxAttempts - 1).err)))
  {
    RetryThrottledRun(call, retryable, maxAttempts, attempt);
    assert Throttled(retryable, call(maxAttempts - 1));
    RetryThrottledLast(call, retryable, maxAttempts);
  }

  /** The throttled run from `attempt` on: its calls, its sleeps, and the last attempt's result. */
  lemma {:induction false} RetryThrottledRun<T>(call: nat -> Outcome<T>, retryable: SdkError -> bool, maxAttempts: nat, attempt: nat)
    requires 1 <= attempt <= maxAttempts
    requires forall k {:trigger Throttled(retryable, call(k))} :: attempt - 1 <= k < maxAttempts ==> Throttled(retryable, call(k))
    ensures RetryFrom(call, retryable, maxAttempts, attempt).calls == maxAttempts - attempt + 1
    ensures RetryFrom(call, retryable, maxAttempts, attempt).sleeps == BackoffSchedule(attempt, maxAttempts - attempt)
    ensures RetryFrom(call, retryable, maxAttempts, attempt).result == RetryFrom(call, retryable, maxAttempts, maxAttempts).result
    decreases maxAttempts - attempt
  {
    if attempt < maxAttempts {
      assert Throttled(retryable, call(attempt - 1));
      RetryThrottledRun(call, retryable, maxAttempts, attempt + 1);
      RetryThrottledStep(call, retryable, maxAttempts, attempt);
      var rest := RetryFrom(call, retryable, maxAttempts, attempt + 1);
      SchedulePrepend(attempt, maxAttempts - attempt, rest.sleeps);
    } else {
      assert Throttled(retryable, call(attempt - 1));
      RetryThrottledLast(call, retryable, maxAttempts);
    }
  }

  /** A throttled attempt before the last sleeps `Backoff(attempt)` and tries again. */
  lemma {:induction false} RetryThrottledStep<T>(call: nat -> Outcome<T>, retryable: SdkError -> bool, maxAttempts: nat, attempt: nat)
    requires 1 <= attempt < maxAttempts && Throttled(retryable, call(attempt - 1))
    ensures var rest := RetryFrom(call, retryable, maxAttempts, attempt + 1);
      RetryFrom(call, retryable, maxAttempts, attempt) == Run(rest.result, rest.calls + 1, [Backoff(attempt)] + rest.sleeps)
  {
  }

  lemma {:induction false} SchedulePrepend(first: nat, count: nat, rest: seq<nat>)
    requires first >= 1 && count >= 1 && rest == BackoffSchedule(first + 1, count - 1)
    ensures [Backoff(first)] + rest == BackoffSchedule(first, count)
  {
  }

  /** A throttled last attempt fails with its own error. */
  lemma {:induction false} RetryThrottledLast<T>(call: nat -> Outcome<T>, retryable: SdkError -> bool, maxAttempts: nat)
    requires 1 <= maxAttempts && Throttled(retryable, call(maxAttempts - 1))
    ensures RetryFrom(call, retryable, maxAttempts, maxAttempts) == Run(Err(AwsSdk(FormatSdkError(call(maxAttempts - 1).err))), 1, [])
  {
  }

  /** However the calls go, no more than `max(maxAttempts, 1)` are made. */
  lemma {:induction false} RetryCallsBounded<T>(call: nat -> Outcome<T>, retryable: SdkError -> bool, maxAttempts: nat, attempt: nat)
    requires attempt >= 1
    ensures RetryFrom(call, retryable, maxAttempts, attempt).calls <= if maxAttempts >= attempt then maxAttempts - attempt + 1 else 1
    decreases maxAttempts - attempt
  {
    match call(attempt - 1)
    case Success(_) =>
    case Failure(err) =>
      if attempt < maxAttempts && retryable(err) {
        RetryCallsBounded(call, retryable, maxAttempts, attempt + 1);
      }
  }

  // ---------------------------------------------------------------------------
  // Pagination in list_accounts / list_account_roles

  /** One page of a listing: the raw items and the continuation token. */
  datatype Page<S> = Page(items: seq<S>, nextToken: Option<string>)

  /** `Some(token) if !token.is_empty()`: the listing continues. */
  predicate Continues(token: Option<string>)
  {
    token.Some? && token.value != ""
  }

  /** The page outcome at `k` ends the loop: an error, or no usable continuation token. */
  predicate StopsAt<S>(pages: seq<Result<Page<S>>>, k: nat)
    requires k < |pages|
  {
    pages[k].Err? || !Continues(pages[k].value.nextToken)
  }

  /** The environment ends the listing at some page. */
  predicate Ends<S>(pages: seq<Result<Page<S>>>)
  {
    exists k | 0 <= k < |pages| :: StopsAt(pages, k)
  }

  /**
   * The listing from page `k` on: each page's items converted by
   * `convert` (dropping those it rejects) and concatenated, or the first
   * error, which discards everything gathered.
   */
  function Collect<S, I>(pages: seq<Result<Page<S>>>, convert: S -> Option<I>, k: nat): Result<seq<I>>
    decreases |pages| - k
  {
    if k >= |pages| then Ok([])
    else match pages[k]
      case Err(e) => Err(e)
      case Ok(p) =>
        if !Continues(p.nextToken) then Ok(FilterMap(p.items, convert))
        else match Collect(pages, convert, k + 1)
          case Err(e) => Err(e)
          case Ok(rest) => Ok(FilterMap(p.items, convert) + rest)
  }

  /** The token sent with request `k`: none first, then the previous page's token. */
  function TokenFor<S>(pages: seq<Result<Page<S>>>, k: nat): Option<string>
    requires k < |pages|
  {
    if k == 0 || pages[k - 1].Err? then None else pages[k - 1].value.nextToken
  }

  /**
   * The pagination loop of `list_accounts` and `list_account_roles`:
   * `pages[k]` is the (already retried) outcome of the k-th request.
   * Returns the collected items and the tokens sent with each request.
   */
  method Paginate<S, I>(pages: seq<Result<Page<S>>>, convert: S -> Option<I>)
    returns (r: Result<seq<I>>, sent: seq<Option<string>>)
    requires Ends(pages)
    ensures r == Collect(pages, convert, 0)
    ensures 1 <= |sent| <= |pages| && StopsAt(pages, |sent| - 1)
    ensures forall k :: 0 <= k < |sent| - 1 ==> !StopsAt(pages, k)
    ensures forall k :: 0 <= k < |sent| ==> sent[k] == TokenFor(pages, k)
  {
    var items: seq<I> := [];
    var nextToken: Option<string> := None;
    var k := 0;
    sent := [];
    GlueEmpty(Collect(pages, convert, 0));
    while true
      invariant 0 <= k < |pages| && |sent| == k
      invariant exists j | k <= j < |pages| :: StopsAt(pages, j)
      invariant forall j :: 0 <= j < k ==> !StopsAt(pages, j)
      invariant forall j :: 0 <= j < k ==> sent[j] == TokenFor(pages, j)
      invariant nextToken == TokenFor(pages, k)
      invariant Collect(pages, convert, 0) == Glue(items, Collect(pages, convert, k))
      decreases |pages| - k
    {
      sent := sent + [nextToken];
      match pages[k]
      case Err(e) =>
        r := Err(e);
        return;
      case Ok(p) =>
        var got := FilterMap(p.items, convert);
        if !Continues(p.nextToken) {
          r := Ok(items + got);
          return;
        }
        GlueStep(items, got, Collect(pages, convert, k + 1));
        items := items + got;
        nextToken := p.nextToken;
        k := k + 1;
    }
  }

  /** The result of having gathered `done` before a remaining listing `rest`. */
  function Glue<I>(done: seq<I>, rest: Result<seq<I>>): Result<seq<I>>
  {
    match rest
    case Err(e) => Err(e)
    case Ok(more) => Ok(done + more)
  }

  lemma {:induction false} GlueEmpty<I>(rest: Result<seq<I>>)
    ensures Glue([], rest) == rest
  {
    if rest.Ok? {
      assert [] + rest.value == rest.value;
    }
  }

  lemma {:induction false} GlueStep<I>(done: seq<I>, got: seq<I>, rest: Result<seq<I>>)
    ensures Glue(done, match rest case Err(e) => Err(e) case Ok(more) => Ok(got + more)) == Glue(done + got, rest)
  {
    if rest.Ok? {
      assert done + (got + rest.value) == (done + got) + rest.value;
    }
  }

  /** An error on any page before the listing ends loses the whole listing: no partial result. */
  lemma {:induction false} CollectErrorAborts<S, I>(pages: seq<Result<Page<S>>>, convert: S -> Option<I>, k: nat, j: nat)
    requires k <= j < |pages| && pages[j].Err?
    requires forall i :: k <= i < j ==> !StopsAt(pages, i)
    ensures Collect(pages, convert, k) == Err(pages[j].error)
    decreases j - k
  {
    if k < j {
      assert !StopsAt(pages, k);
      CollectErrorAborts(pages, convert, k + 1, j);
    }
  }

  /** When every page up to the last succeeds, the items come out page by page, in order. */
  lemma {:induction false} CollectPagesInOrder<S, I>(pages: seq<Result<Page<S>>>, convert: S -> Option<I>, k: nat)
    requires k < |pages| && pages[k].Ok? && Continues(pages[k].value.nextToken)
    requires k + 1 < |pages| && pages[k + 1].Ok? && !Continues(pages[k + 1].value.nextToken)
    ensures Collect(pages, convert, k) ==
      Ok(FilterMap(pages[k].value.items, convert) + FilterMap(pages[k + 1].value.items, convert))
  {
  }

  // ---------------------------------------------------------------------------
  // SDK records

  datatype AccountInfo = AccountInfo(accountId: Option<string>, accountName: Option<string>)

  datatype RoleInfo = RoleInfo(roleName: Option<string>)

  /** `account_from_sdk`: an account needs both its id and its name. */
  function AccountFromSdk(a: AccountInfo): (r: Option<Account>)
    ensures r.Some? <==> a.accountId.Some? && a.accountName.Some?
    ensures r.Some? ==> r.value == Account(a.accountId.value, a.accountName.value)
  {
    match (a.accountId, a.accountName)
    case (Some(id), Some(name)) => Some(Account(id, name))
    case _ => None
  }

  /** `role_from_sdk`: a role needs its name. */
  function RoleFromSdk(r: RoleInfo): (o: Option<Role>)
    ensures o.Some? <==> r.roleName.Some?
    ensures o.Some? ==> o.value == Role(r.roleName.value)
  {
    match r.roleName
    case Some(name) => Some(Role(name))
    case None => None
  }

  /** `list_accounts` over already-retried page outcomes. */
  method ListAccounts(pages: seq<Result<Page<AccountInfo>>>) returns (r: Result<seq<Account>>)
    requires Ends(pages)
    ensures r == Collect(pages, AccountFromSdk, 0)
  {
    var sent;
    r, sent := Paginate(pages, AccountFromSdk);
  }

  /** `list_account_roles` over already-retried page outcomes. */
  method ListAccountRoles(pages: seq<Result<Page<RoleInfo>>>) returns (r: Result<seq<Role>>)
    requires Ends(pages)
    ensures r == Collect(pages, RoleFromSdk, 0)
  {
    var sent;
    r, sent := Paginate(pages, RoleFromSdk);
  }

  /** Accounts with both an id and a name are kept by the conversion. */
  lemma {:induction false} ListedAccountsComplete(items: seq<AccountInfo>, i: nat)
    requires i < |items| && items[i].accountId.Some? && items[i].accountName.Some?
    ensures Account(items[i].accountId.value, items[i].accountName.value) in FilterMap(items, AccountFromSdk)
    decreases i
  {
    if i > 0 {
      ListedAccountsComplete(items[1..], i - 1);
    }
  }
}
