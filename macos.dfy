/**
 * The macOS desktop integration (src/desktop/macos.rs): reading the
 * frontmost browser tab's URL and closing it with AppleScript when it is
 * the loopback page of the sign-in flow, recognising an automation
 * permission refusal, and focusing the terminal with `open -a`.
 *
 * Each helper run (`osascript`, `open`) is an outcome the environment
 * gives, as a `Spawn`; the application's name `open` is given is an
 * argument of the environment's function.
 *
 * A few texts that proofs read character by character are written as
 * concatenations of pieces under 40 characters: the verifier does not look
 * inside a longer string literal.
 */
module Macos {
  import opened Wrappers
  import opened Errors
  import opened Strings
  import opened DesktopUtil
  import opened FileStore
  import opened Permissions
  import opened Detect

  /** `MAC_AUTOMATION_PERMISSION_DENIED_ERROR`. */
  const PermissionDeniedMessage: string := "macOS automation permission " + "denied for close-auth-tab"

  /** `MAC_AUTOMATION_PERMISSION_HELP`. */
  const PermissionHelp: string := "When prompted, click Allow. If you previously denied it, open System Settings > Privacy & Security > Automation and allow your terminal app to control System Events and your browser."

  /** The error `focus_terminal_app` returns when no app could be activated. */
  const NoTerminalAppMessage: string := "could not detect terminal app. Set ROLEMAN_TERMINAL_APP to your app name (for example: Terminal, iTerm, Warp, WezTerm)."

  // ---------------------------------------------------------------------------
  // The host of a URL

  /** The last index below `n` holding `c`. */
  function LastCharBefore(s: string, c: char, n: nat): (r: Option<nat>)
    requires n <= |s|
    ensures r.Some? ==> r.value < n && s[r.value] == c
    ensures r.Some? ==> forall j :: r.value < j < n ==> s[j] != c
    ensures r.None? ==> forall j :: 0 <= j < n ==> s[j] != c
    decreases n
  {
    if n == 0 then None
    else if s[n - 1] == c then Some(n - 1)
    else LastCharBefore(s, c, n - 1)
  }

  lemma {:induction false} LastCharBeforeAt(s: string, c: char, n: nat, at: nat)
    requires at < n <= |s| && s[at] == c
    requires forall j :: at < j < n ==> s[j] != c
    ensures LastCharBefore(s, c, n) == Some(at)
    decreases n
  {
    if at < n - 1 {
      LastCharBeforeAt(s, c, n - 1, at);
    }
  }

  /** `s.split(c).next()`: the text before the first `c`, or all of `s`. */
  function FirstPiece(s: string, c: char): (r: string)
    ensures r <= s && c !in r
    ensures |r| < |s| ==> s[|r|] == c
  {
    match FindChar(s, c)
    case None => s
    case Some(i) => s[..i]
  }

  /** `s.rsplit(c).next()`: the text after the last `c`, or all of `s`. */
  function LastPiece(s: string, c: char): (r: string)
    ensures |r| <= |s| && r == s[|s| - |r|..] && c !in r
    ensures |r| < |s| ==> s[|s| - |r| - 1] == c
  {
    match LastCharBefore(s, c, |s|)
    case None => s
    case Some(i) =>
      var r := s[i + 1..];
      assert forall k :: 0 <= k < |r| ==> r[k] == s[i + 1 + k];
      r
  }

  /**
   * The authority of a URL (section 3.2 of RFC 3986, as `url_host` reads
   * it): that of the trimmed URL.
   */
  function Authority(url: string): (a: Option<string>)
    ensures a.None? <==> !Contains(Trim(url), "://")
    ensures a.Some? ==> '/' !in a.value && '@' !in a.value
  {
    AuthorityIn(Trim(url))
  }

  /**
   * The authority of a trimmed URL: after its first "://", up to the first
   * '/', and after the last '@'. None when there is no "://".
   */
  function AuthorityIn(t: string): (a: Option<string>)
    ensures a.None? <==> !Contains(t, "://")
    ensures a.Some? ==> '/' !in a.value && '@' !in a.value
  {
    match SplitOnce(t, "://")
    case None => None
    case Some(parts) =>
      var segment := FirstPiece(parts.1, '/');
      var authority := LastPiece(segment, '@');
      assert forall k :: 0 <= k < |authority| ==> authority[k] == segment[|segment| - |authority| + k];
      Some(authority)
  }

  /** The host of an authority, as `url_host` reads it. */
  function HostOfAuthority(authority: string): (r: Option<string>)
    ensures StartsWith(authority, "[") ==> (r.None? <==> ']' !in authority[1..])
    ensures StartsWith(authority, "[") && r.Some? ==> "[" + r.value + "]" <= authority && ']' !in r.value
    ensures !StartsWith(authority, "[") ==>
      r.Some? && r.value <= authority && ':' !in r.value && (|r.value| < |authority| ==> authority[|r.value|] == ':')
  {
    if StartsWith(authority, "[") then
      var stripped := authority[1..];
      match FindChar(stripped, ']')
      case None => None
      case Some(end) =>
        assert authority == "[" + stripped;
        assert stripped[..end + 1] == stripped[..end] + "]";
        Some(stripped[..end])
    else Some(FirstPiece(authority, ':'))
  }

  /** `url_host`: the host of the URL's authority; none without "://". */
  function UrlHost(url: string): (r: Option<string>)
    ensures !Contains(Trim(url), "://") ==> r.None?
    ensures Authority(url).Some? ==> r == HostOfAuthority(Authority(url).value)
  {
    match Authority(url)
    case None => None
    case Some(authority) => HostOfAuthority(authority)
  }

  /** The trimmed URL splits at its scheme's "://" when the scheme has no ':'. */
  lemma {:induction false} SplitAtScheme(scheme: string, remainder: string)
    requires ':' !in scheme
    ensures SplitOnce(scheme + "://" + remainder, "://") == Some((scheme, remainder))
  {
    var t := scheme + "://" + remainder;
    assert t[|scheme|..|scheme| + 3] == "://";
    assert forall j :: 0 <= j < |scheme| ==> t[j] == scheme[j];
    FindFirstAt(t, "://", |scheme|);
    assert t[..|scheme|] == scheme;
    assert t[|scheme| + 3..] == remainder;
  }

  /** The authority is the text between "://" and the path. */
  lemma {:induction false} AuthorityOfParts(url: string, scheme: string, userinfo: string, hostPort: string, path: string)
    requires Trim(url) == scheme + "://" + userinfo + hostPort + path
    requires ':' !in scheme
    requires '/' !in userinfo && (userinfo == [] || userinfo[|userinfo| - 1] == '@')
    requires '/' !in hostPort && '@' !in hostPort
    requires path == [] || path[0] == '/'
    ensures Authority(url) == Some(hostPort)
  {
    AuthorityInParts(scheme, userinfo, hostPort, path);
  }

  lemma {:induction false} AuthorityInParts(scheme: string, userinfo: string, hostPort: string, path: string)
    requires ':' !in scheme
    requires '/' !in userinfo && (userinfo == [] || userinfo[|userinfo| - 1] == '@')
    requires '/' !in hostPort && '@' !in hostPort
    requires path == [] || path[0] == '/'
    ensures AuthorityIn(scheme + "://" + userinfo + hostPort + path) == Some(hostPort)
  {
    var segment := userinfo + hostPort;
    var remainder := segment + path;
    assert scheme + "://" + userinfo + hostPort + path == scheme + "://" + remainder;
    SplitAtScheme(scheme, remainder);
    SegmentOfRemainder(segment, path);
    LastPieceAfterUserinfo(userinfo, hostPort);
  }

  /** The text before the path's '/' is the part ahead of the path. */
  lemma {:induction false} SegmentOfRemainder(segment: string, path: string)
    requires '/' !in segment && (path == [] || path[0] == '/')
    ensures FirstPiece(segment + path, '/') == segment
  {
    if path == [] {
      assert segment + path == segment;
    } else {
      assert segment + path == segment + ['/'] + path[1..];
      FindCharAt(segment, '/', path[1..]);
      assert (segment + path)[..|segment|] == segment;
    }
  }

  /** The text after the userinfo's last '@' is the host and port. */
  lemma {:induction false} LastPieceAfterUserinfo(userinfo: string, hostPort: string)
    requires userinfo == [] || userinfo[|userinfo| - 1] == '@'
    requires '@' !in hostPort
    ensures LastPiece(userinfo + hostPort, '@') == hostPort
  {
    var segment := userinfo + hostPort;
    if userinfo == [] {
      assert segment == hostPort;
      assert LastCharBefore(segment, '@', |segment|) == None;
    } else {
      var at := |userinfo| - 1;
      assert segment[at] == '@';
      assert forall j :: at < j < |segment| ==> segment[j] == hostPort[j - |userinfo|];
      LastCharBeforeAt(segment, '@', |segment|, at);
      assert segment[at + 1..] == hostPort;
    }
  }

  /**
   * For `scheme://userinfo@host:port/path`, with a scheme free of ':' and a
   * host free of ':', '/', '@' that does not start with '[', the host is
   * `host`, whatever whitespace surrounds the URL.
   */
  lemma {:induction false} UrlHostOfParts(url: string, scheme: string, userinfo: string, host: string, port: string,
                                          path: string)
    requires Trim(url) == scheme + "://" + userinfo + host + port + path
    requires ':' !in scheme
    requires '/' !in userinfo && (userinfo == [] || userinfo[|userinfo| - 1] == '@')
    requires ':' !in host && '/' !in host && '@' !in host && (host == [] || host[0] != '[')
    requires '/' !in port && '@' !in port && (port == [] || port[0] == ':')
    requires path == [] || path[0] == '/'
    ensures UrlHost(url) == Some(host)
  {
    Regroup(scheme + "://" + userinfo, host, port, path);
    AuthorityOfParts(url, scheme, userinfo, host + port, path);
    HostOfPlain(host, port);
  }

  /** For `scheme://userinfo@[host]:port/path` the host is the bracketed text. */
  lemma {:induction false} UrlHostOfBracketed(url: string, scheme: string, userinfo: string, host: string,
                                              port: string, path: string)
    requires Trim(url) == scheme + "://" + userinfo + "[" + host + "]" + port + path
    requires ':' !in scheme
    requires '/' !in userinfo && (userinfo == [] || userinfo[|userinfo| - 1] == '@')
    requires ']' !in host && '/' !in host && '@' !in host
    requires '/' !in port && '@' !in port
    requires path == [] || path[0] == '/'
    ensures UrlHost(url) == Some(host)
  {
    RegroupBracketed(scheme + "://" + userinfo, host, port, path);
    AuthorityOfParts(url, scheme, userinfo, "[" + host + "]" + port, path);
    HostOfBracketed(host, port);
  }

  lemma {:induction false} Regroup(head: string, host: string, port: string, path: string)
    ensures head + host + port + path == head + (host + port) + path
  {
  }

  lemma {:induction false} RegroupBracketed(head: string, host: string, port: string, path: string)
    ensures head + "[" + host + "]" + port + path == head + ("[" + host + "]" + port) + path
  {
  }

  /** An authority not starting with '[' has the host before its port's ':'. */
  lemma {:induction false} HostOfPlain(host: string, port: string)
    requires ':' !in host && (host == [] || host[0] != '[')
    requires port == [] || port[0] == ':'
    ensures HostOfAuthority(host + port) == Some(host)
  {
    var hostPort := host + port;
    assert !StartsWith(hostPort, "[") by {
      if hostPort != [] {
        assert hostPort[0] == (if host != [] then host[0] else port[0]);
      }
    }
    if port == [] {
      assert hostPort == host;
      assert FindChar(hostPort, ':') == None;
    } else {
      assert hostPort == host + [':'] + port[1..];
      FindCharAt(host, ':', port[1..]);
      assert hostPort[..|host|] == host;
    }
  }

  /** A bracketed authority has the host between the brackets. */
  lemma {:induction false} HostOfBracketed(host: string, port: string)
    requires ']' !in host
    ensures HostOfAuthority("[" + host + "]" + port) == Some(host)
  {
    var hostPort := "[" + host + "]" + port;
    assert StartsWith(hostPort, "[");
    var stripped := hostPort[1..];
    assert stripped == host + "]" + port;
    FindCharAt(host, ']', port);
    assert stripped[..|host|] == host;
  }

  /** A URL without ':' has no host (the source's "not-a-url" example). */
  lemma {:induction false} NoColonNoHost(url: string)
    requires ':' !in url
    ensures UrlHost(url) == None
  {
    var t := Trim(url);
    var u := TrimStartBy(url, IsWhitespace);
    assert forall k :: 0 <= k < |u| ==> u[k] == url[|url| - |u| + k];
    assert forall k :: 0 <= k < |t| ==> t[k] == u[k];
    MissingCharNotContained(t, "://", 0);
  }

  // ---------------------------------------------------------------------------
  // Loopback URLs

  /** A loopback host: "localhost" in any ASCII case, or exactly "127.0.0.1" or "::1". */
  predicate IsLoopbackHost(host: string)
  {
    EqIgnoreAsciiCase(host, "localhost") || host == "127.0.0.1" || host == "::1"
  }

  /** `is_loopback_auth_url`: the URL has a host, and it is a loopback host. */
  predicate IsLoopbackAuthUrl(url: string)
  {
    match UrlHost(url)
    case None => false
    case Some(host) => IsLoopbackHost(host)
  }

  /** A loopback host has 9 or 3 characters, so no longer name (such as "localhost.evil.example") is one. */
  lemma {:induction false} LoopbackHostLength(host: string)
    requires IsLoopbackHost(host)
    ensures |host| == 9 || |host| == 3
  {
    if EqIgnoreAsciiCase(host, "localhost") {
      assert |ToLower(host)| == |ToLower("localhost")|;
    }
  }

  /** For a URL built from parts, being loopback is exactly its host being a loopback host. */
  lemma {:induction false} LoopbackOfParts(url: string, scheme: string, userinfo: string, host: string, port: string,
                                           path: string)
    requires Trim(url) == scheme + "://" + userinfo + host + port + path
    requires ':' !in scheme
    requires '/' !in userinfo && (userinfo == [] || userinfo[|userinfo| - 1] == '@')
    requires ':' !in host && '/' !in host && '@' !in host && (host == [] || host[0] != '[')
    requires '/' !in port && '@' !in port && (port == [] || port[0] == ':')
    requires path == [] || path[0] == '/'
    ensures IsLoopbackAuthUrl(url) <==> IsLoopbackHost(host)
  {
    UrlHostOfParts(url, scheme, userinfo, host, port, path);
  }

  /** A URL with no "://" is never loopback. */
  lemma {:induction false} NoSchemeNotLoopback(url: string)
    requires !Contains(Trim(url), "://")
    ensures !IsLoopbackAuthUrl(url)
  {
  }

  /**
   * A host longer than "localhost", such as "localhost.evil.example", is
   * never loopback, whatever it starts with.
   */
  lemma {:induction false} LongHostNotLoopback(url: string)
    requires UrlHost(url).Some? && |UrlHost(url).value| > 9
    ensures !IsLoopbackAuthUrl(url)
  {
    if IsLoopbackAuthUrl(url) {
      LoopbackHostLength(UrlHost(url).value);
    }
  }

  // ---------------------------------------------------------------------------
  // Automation permission refusals

  /**
   * `osascript_permission_denied`: the lowercase of standard error, a
   * newline and standard output mentions error -1743, "not authorized to
   * send apple events", "erraeeventnotpermitted" or "not allowed assistive
   * access", or both "accessibility" and "not allowed".
   */
  predicate OsascriptPermissionDenied(output: CommandOutput)
  {
    MentionsRefusal(ToLower(output.stderr + "\n" + output.stdout))
  }

  /** The marker test on the lowercased text. */
  predicate MentionsRefusal(lower: string)
  {
    Contains(lower, ErrorCodeMarker)
    || Contains(lower, AppleEventsMarker)
    || Contains(lower, NotPermittedMarker)
    || Contains(lower, AssistiveAccessMarker)
    || (Contains(lower, "accessibility") && Contains(lower, "not allowed"))
  }

  /** The four markers that alone mean a refusal. */
  const ErrorCodeMarker: string := "(-1743)"
  const AppleEventsMarker: string := "not authorized to send apple events"
  const NotPermittedMarker: string := "erraeeventnotpermitted"
  const AssistiveAccessMarker: string := "not allowed assistive access"

  /** A marker of the first four in the lowercase of standard error is a refusal, whatever standard output says. */
  lemma {:induction false} DeniedByStderr(output: CommandOutput, marker: string)
    requires marker in [ErrorCodeMarker, AppleEventsMarker, NotPermittedMarker, AssistiveAccessMarker]
    requires Contains(ToLower(output.stderr), marker)
    ensures OsascriptPermissionDenied(output)
  {
    ToLowerConcat(output.stderr, "\n" + output.stdout);
    assert output.stderr + "\n" + output.stdout == output.stderr + ("\n" + output.stdout);
    ContainsLeft(ToLower(output.stderr), ToLower("\n" + output.stdout), marker);
  }

  /** A marker of the first four in the lowercase of standard output is a refusal, whatever standard error says. */
  lemma {:induction false} DeniedByStdout(output: CommandOutput, marker: string)
    requires marker in [ErrorCodeMarker, AppleEventsMarker, NotPermittedMarker, AssistiveAccessMarker]
    requires Contains(ToLower(output.stdout), marker)
    ensures OsascriptPermissionDenied(output)
  {
    ToLowerConcat(output.stderr + "\n", output.stdout);
    ContainsRight(ToLower(output.stderr + "\n"), ToLower(output.stdout), marker);
  }

  /** The source's refusal example: error -1743 on standard error. */
  lemma DeniedExample()
    ensures OsascriptPermissionDenied(CommandOutput(false, Some(1), "",
      "execution error: Not authorized " + "to send Apple events to System Events. " + "(-1743)"))
  {
    var head := "execution error: Not authorized " + "to send Apple events to System Events. ";
    var output := CommandOutput(false, Some(1), "", head + ErrorCodeMarker);
    ToLowerConcat(head, ErrorCodeMarker);
    assert ToLower(ErrorCodeMarker) == ErrorCodeMarker;
    assert OccursAt(ErrorCodeMarker, ErrorCodeMarker, 0);
    ContainsRight(ToLower(head), ToLower(ErrorCodeMarker), ErrorCodeMarker);
    DeniedByStderr(output, ErrorCodeMarker);
  }

  /**
   * Text without a '1', a 'p', a 'w' or a 'y' (in either case) cannot hold
   * any marker, since each marker needs one of them.
   */
  lemma {:induction false} NoMarkerLetters(text: string)
    requires '1' !in text && 'p' !in text && 'P' !in text
    requires 'w' !in text && 'W' !in text && 'y' !in text && 'Y' !in text
    ensures !MentionsRefusal(ToLower(text))
  {
    var lower := ToLower(text);
    LowerMissing(text, '1');
    MissingCharNotContained(lower, ErrorCodeMarker, 2);
    LowerMissing(text, 'p');
    MissingCharNotContained(lower, AppleEventsMarker, 24);
    MissingCharNotContained(lower, NotPermittedMarker, 13);
    LowerMissing(text, 'w');
    MissingCharNotContained(lower, AssistiveAccessMarker, 8);
    LowerMissing(text, 'y');
    MissingCharNotContained(lower, "accessibility", 12);
  }

  /** The text of the source's unrelated-error example. */
  const UnrelatedErrorText: string := "execution error: Variable " + "is not defined. (-2753)"

  lemma {:induction false} UnrelatedTextLacksDigit(text: string)
    requires text == UnrelatedErrorText + "\n"
    ensures '1' !in text
  {
  }

  lemma {:induction false} UnrelatedTextLacksP(text: string)
    requires text == UnrelatedErrorText + "\n"
    ensures 'p' !in text && 'P' !in text
  {
  }

  lemma {:induction false} UnrelatedTextLacksW(text: string)
    requires text == UnrelatedErrorText + "\n"
    ensures 'w' !in text && 'W' !in text
  {
  }

  lemma {:induction false} UnrelatedTextLacksY(text: string)
    requires text == UnrelatedErrorText + "\n"
    ensures 'y' !in text && 'Y' !in text
  {
  }

  /** The source's unrelated-error example: error -2753 is not a refusal. */
  lemma {:induction false} UnrelatedErrorExample(output: CommandOutput)
    requires output.stderr == UnrelatedErrorText && output.stdout == ""
    ensures !OsascriptPermissionDenied(output)
  {
    var text := output.stderr + "\n" + output.stdout;
    assert text == UnrelatedErrorText + "\n";
    UnrelatedTextLacksDigit(text);
    UnrelatedTextLacksP(text);
    UnrelatedTextLacksW(text);
    UnrelatedTextLacksY(text);
    NoMarkerLetters(text);
  }

  /** `permission_denied_error`. */
  const PermissionDenied: Error := Config(PermissionDeniedMessage)

  /** `is_macos_automation_permission_denied`: exactly the refusal's `Config` message. */
  predicate IsAutomationPermissionDenied(err: Error)
  {
    err.Config? && err.configMessage == PermissionDeniedMessage
  }

  /** The error of a failed `osascript` run: the refusal when its output says so, else the output's error. */
  function OsascriptFailure(output: CommandOutput): (e: Error)
    ensures IsAutomationPermissionDenied(e) <==> OsascriptPermissionDenied(output)
    ensures !OsascriptPermissionDenied(output) ==> e == CommandOutputError("osascript", output)
  {
    if OsascriptPermissionDenied(output) then PermissionDenied
    else
      CommandOutputErrorNamesProgram("osascript", output);
      assert CommandOutputError("osascript", output).configMessage[0] == 'o';
      assert PermissionDeniedMessage[0] == 'm';
      CommandOutputError("osascript", output)
  }

  /** The error of an `osascript` that could not be started. */
  function OsascriptSpawnError(reason: string): (e: Error)
    ensures e.Config? && StartsWith(e.configMessage, "failed to run osascript: ")
    ensures !IsAutomationPermissionDenied(e)
  {
    var m := "failed to run osascript: " + reason;
    assert m[0] == 'f';
    Config(m)
  }

  /** `run_osascript`: success, the failure's error, or the spawn error. */
  function OsascriptStatus(run: Spawn): (r: Result<()>)
    ensures r.Ok? <==> run.Spawned? && run.output.success
    ensures run.Spawned? && !run.output.success ==> r == Err(OsascriptFailure(run.output))
    ensures run.SpawnFailed? ==> r == Err(OsascriptSpawnError(run.reason))
  {
    match run
    case SpawnFailed(reason) => Err(OsascriptSpawnError(reason))
    case Spawned(output) => if output.success then Ok(()) else Err(OsascriptFailure(output))
  }

  /** `run_osascript_capture`: the standard output of a successful run, else the same errors. */
  function OsascriptCapture(run: Spawn): (r: Result<string>)
    ensures r.Ok? <==> OsascriptStatus(run).Ok?
    ensures r.Ok? ==> r.value == run.output.stdout
    ensures r.Err? ==> r.error == OsascriptStatus(run).error
  {
    match run
    case SpawnFailed(reason) => Err(OsascriptSpawnError(reason))
    case Spawned(output) => if output.success then Ok(output.stdout) else Err(OsascriptFailure(output))
  }

  /** A failed `osascript` run reports the refusal exactly when its output says so. */
  lemma {:induction false} StatusDeniedIff(run: Spawn)
    requires OsascriptStatus(run).Err?
    ensures IsAutomationPermissionDenied(OsascriptStatus(run).error)
            <==> run.Spawned? && OsascriptPermissionDenied(run.output)
  {
  }

  /** `frontmost_browser_tab_url`: the trimmed output of the script, none when blank. */
  function FrontmostTabUrl(run: Spawn): (r: Result<Option<string>>)
    ensures r.Ok? <==> OsascriptStatus(run).Ok?
    ensures r.Err? ==> r.error == OsascriptStatus(run).error
    ensures r.Ok? ==> (r.value.None? <==> Trim(run.output.stdout) == "")
    ensures r.Ok? && r.value.Some? ==> r.value.value == Trim(run.output.stdout) && r.value.value != ""
  {
    match OsascriptCapture(run)
    case Err(e) => Err(e)
    case Ok(output) =>
      var trimmed := Trim(output);
      if trimmed == "" then Ok(None) else Ok(Some(trimmed))
  }

  // ---------------------------------------------------------------------------
  // Closing the sign-in tab

  /** What `close_auth_browser_tab` does besides returning: record the flag, send ⌘W. */
  datatype Effect = RecordAuthorized(authorized: bool) | SendCloseKey

  datatype CloseOutcome = CloseOutcome(result: Result<()>, effects: seq<Effect>)

  /** The recorded flags added when a script's run fails with `e`: false for a refusal, nothing otherwise. */
  function AfterFailure(e: Error): (effects: seq<Effect>)
    ensures RecordAuthorized(false) in effects <==> IsAutomationPermissionDenied(e)
    ensures RecordAuthorized(true) !in effects && SendCloseKey !in effects
  {
    if IsAutomationPermissionDenied(e) then [RecordAuthorized(false)] else []
  }

  /**
   * `close_auth_browser_tab`, given the outcome of reading the front tab's
   * URL (`FrontmostTabUrl`) and of the close script (`OsascriptStatus`): a
   * failed read records false when it is a refusal and returns its error. A
   * URL records true; a loopback one is then closed, whose failure records
   * false when it is a refusal and is returned, and whose success records
   * true.
   */
  function CloseAuthBrowserTab(read: Result<Option<string>>, close: Result<()>): (o: CloseOutcome)
    ensures SendCloseKey in o.effects <==> read.Ok? && read.value.Some? && IsLoopbackAuthUrl(read.value.value)
    ensures RecordAuthorized(true) in o.effects <==> read.Ok? && read.value.Some?
    ensures RecordAuthorized(false) in o.effects <==> o.result.Err? && IsAutomationPermissionDenied(o.result.error)
    ensures o.result.Ok? <==> read.Ok? && (read.value.None? || !IsLoopbackAuthUrl(read.value.value) || close.Ok?)
    ensures o.result.Err? ==> o.result == (if read.Err? then Err(read.error) else close)
  {
    match read
    case Err(e) => CloseOutcome(Err(e), AfterFailure(e))
    case Ok(tabUrl) =>
      if tabUrl.None? then CloseOutcome(Ok(()), [])
      else if !IsLoopbackAuthUrl(tabUrl.value) then CloseOutcome(Ok(()), [RecordAuthorized(true)])
      else CloseLoopbackTab(close)
  }

  /**
   * The loopback branch: true is recorded and the close key sent; then the
   * key's outcome is the result, recording true again on success and false
   * on a refusal.
   */
  function CloseLoopbackTab(close: Result<()>): (o: CloseOutcome)
    ensures SendCloseKey in o.effects && RecordAuthorized(true) in o.effects
    ensures RecordAuthorized(false) in o.effects <==> close.Err? && IsAutomationPermissionDenied(close.error)
    ensures o.result == close
  {
    match close
    case Err(e) => CloseOutcome(Err(e), [RecordAuthorized(true), SendCloseKey] + AfterFailure(e))
    case Ok(_) =>
      var effects := [RecordAuthorized(true), SendCloseKey, RecordAuthorized(true)];
      assert effects[0] != RecordAuthorized(false) && effects[1] != RecordAuthorized(false);
      assert effects[2] != RecordAuthorized(false);
      CloseOutcome(close, effects)
  }

  /** A refused read records false and returns the refusal, and nothing is closed. */
  lemma {:induction false} DeniedReadRecordsFalse(readRun: Spawn, close: Result<()>)
    requires readRun.Spawned? && !readRun.output.success && OsascriptPermissionDenied(readRun.output)
    ensures CloseAuthBrowserTab(FrontmostTabUrl(readRun), close) == CloseOutcome(Err(PermissionDenied), [RecordAuthorized(false)])
  {
  }

  /** A URL that is not loopback records true, returns success and is left open. */
  lemma {:induction false} OtherTabLeftOpen(url: string, close: Result<()>)
    requires !IsLoopbackAuthUrl(url)
    ensures CloseAuthBrowserTab(Ok(Some(url)), close) == CloseOutcome(Ok(()), [RecordAuthorized(true)])
  {
  }

  /** The last flag recorded is only ever false after a refusal, and the result then is that refusal. */
  lemma {:induction false} RecordedFalseIsRefusal(read: Result<Option<string>>, close: Result<()>)
    ensures var o := CloseAuthBrowserTab(read, close);
      o.effects != [] && o.effects[|o.effects| - 1] == RecordAuthorized(false) ==> o.result == Err(PermissionDenied)
  {
    var o := CloseAuthBrowserTab(read, close);
    if o.effects != [] && o.effects[|o.effects| - 1] == RecordAuthorized(false) {
      assert RecordAuthorized(false) in o.effects;
    }
  }

  // ---------------------------------------------------------------------------
  // Focus, the permission prompt and its help

  /**
   * `focus_terminal_app`: `open -a <app>` (`openRun(app)`) for the detected
   * app name; any failure, and a missing name, give the fixed `Config` error.
   */
  function FocusTerminalApp(target: TerminalTarget, openRun: string -> Spawn): (r: Result<()>)
    ensures r.Ok? <==> target.appName.Some? && RunStatus("open", openRun(target.appName.value)).Ok?
    ensures r.Err? ==> r == Err(Config(NoTerminalAppMessage))
  {
    match target.appName
    case Some(app) =>
      if RunStatus("open", openRun(app)).Ok? then Ok(()) else Err(Config(NoTerminalAppMessage))
    case None => Err(Config(NoTerminalAppMessage))
  }

  /** `should_warn_close_auth_tab_permission_prompt`: warn until the close has been authorised. */
  predicate ShouldWarnClosePermissionPrompt(files: Files, xdgCacheHome: Option<string>, home: Option<string>,
                                            decode: string -> Option<DesktopPermissions>)
  {
    !IsAuthorized(files, xdgCacheHome, home, decode)
  }

  /** The prompt is warned about with no permissions file, and not after the flag was set to true. */
  lemma {:induction false} WarnUntilAuthorized(files: Files, xdgCacheHome: Option<string>, home: Option<string>,
                                               encode: DesktopPermissions -> Option<string>,
                                               decode: string -> Option<DesktopPermissions>)
    requires PermissionsCachePath(xdgCacheHome, home).Ok?
    requires PermissionsCachePath(xdgCacheHome, home).value !in files
    requires encode(DesktopPermissions(true)).Some?
    requires decode(encode(DesktopPermissions(true)).value) == Some(DesktopPermissions(true))
    ensures ShouldWarnClosePermissionPrompt(files, xdgCacheHome, home, decode)
    ensures !ShouldWarnClosePermissionPrompt(
      FilesAfterSave(files, xdgCacheHome, home, RecordToSet(files, xdgCacheHome, home, decode, true), encode, true, true),
      xdgCacheHome, home, decode)
  {
    MissingOrInvalidNotAuthorized(files, xdgCacheHome, home, decode);
    SetThenRead(files, xdgCacheHome, home, true, encode, decode);
  }

  /** `close_auth_tab_permission_denied_help`: the help text for a refusal, none for any other error. */
  function ClosePermissionDeniedHelp(err: Error): (r: Option<string>)
    ensures r.Some? <==> IsAutomationPermissionDenied(err)
    ensures r.Some? ==> r.value == PermissionHelp
  {
    if IsAutomationPermissionDenied(err) then Some(PermissionHelp) else None
  }
}
