/**
 * The Linux desktop integration (src/desktop/linux.rs): closing the
 * sign-in tab with `xdotool key ctrl+w` when the active window's title
 * mentions a loopback address, and focusing the terminal with `xdotool`,
 * falling back to `wmctrl`.
 *
 * Each helper run is an outcome the environment gives, as a `Spawn`; the
 * runs that depend on a pid or a window pattern are functions of it.
 */
module Linux {
  import opened Wrappers
  import opened Errors
  import opened Strings
  import opened DesktopUtil
  import opened Detect
  import Macos

  /** The loopback address a title is searched for. */
  const LoopbackAddress: string := "127.0.0.1"

  /** The loopback name a title is searched for. */
  const LocalhostName: string := "localhost"

  /** The error `focus_terminal_app` returns when neither route activated a window. */
  const NoWindowMessage: string := "could not focus terminal window on Linux. Install `xdotool` (preferred) or `wmctrl`, or set ROLEMAN_TERMINAL_APP."

  // ---------------------------------------------------------------------------
  // The active window's title

  /**
   * `active_window_title`: the trimmed standard output of
   * `xdotool getactivewindow getwindowname`, else that run's error.
   */
  function ActiveWindowTitle(run: Spawn): (r: Result<string>)
    ensures r.Ok? <==> RunStatus("xdotool", run).Ok?
    ensures r.Ok? ==> r.value == Trim(run.output.stdout)
    ensures r.Err? ==> r.error == RunStatus("xdotool", run).error
  {
    match RunStatus("xdotool", run)
    case Err(e) => Err(e)
    case Ok(_) => Ok(Trim(run.output.stdout))
  }

  /** `title_mentions_loopback`: the lower-cased title contains "127.0.0.1" or "localhost". */
  predicate TitleMentionsLoopback(title: string)
  {
    var lower := ToLower(title);
    Contains(lower, LoopbackAddress) || Contains(lower, LocalhostName)
  }

  /** A title that holds either name, as typed, mentions loopback. */
  lemma {:induction false} NameMentionsLoopback(title: string)
    requires Contains(title, LoopbackAddress) || Contains(title, LocalhostName)
    ensures TitleMentionsLoopback(title)
  {
    if Contains(title, LoopbackAddress) {
      ContainsLower(title, LoopbackAddress);
      LowerNoop(LoopbackAddress);
    } else {
      ContainsLower(title, LocalhostName);
      LowerNoop(LocalhostName);
    }
  }

  /** Text around a title that mentions loopback does not change that. */
  lemma {:induction false} MentionsWithin(pre: string, mid: string, post: string)
    requires TitleMentionsLoopback(mid)
    ensures TitleMentionsLoopback(pre + mid + post)
  {
    ToLowerConcat(pre, mid);
    ToLowerConcat(pre + mid, post);
    var lower := ToLower(mid);
    var pat := if Contains(lower, LoopbackAddress) then LoopbackAddress else LocalhostName;
    ContainsRight(ToLower(pre), lower, pat);
    ContainsLeft(ToLower(pre) + lower, ToLower(post), pat);
  }

  /** A title without a '1' and without an 'h' in either case does not mention loopback. */
  lemma {:induction false} NoOneNoHNotLoopback(title: string)
    requires '1' !in title && 'h' !in title && 'H' !in title
    ensures !TitleMentionsLoopback(title)
  {
    var lower := ToLower(title);
    LowerMissing(title, '1');
    MissingCharNotContained(lower, LoopbackAddress, 0);
    LowerMissing(title, 'h');
    MissingCharNotContained(lower, LocalhostName, 5);
  }

  /**
   * The title test is weaker than the macOS host test: a URL whose host
   * merely contains "localhost" (such as "localhost.evil.example") passes
   * it although its host is not a loopback host.
   */
  lemma {:induction false} TitleWeakerThanHost(url: string)
    requires Contains(url, LocalhostName)
    requires Macos.UrlHost(url).Some? && |Macos.UrlHost(url).value| > 9
    ensures TitleMentionsLoopback(url) && !Macos.IsLoopbackAuthUrl(url)
  {
    NameMentionsLoopback(url);
    Macos.LongHostNotLoopback(url);
  }

  // ---------------------------------------------------------------------------
  // Closing the sign-in tab

  /** What a close attempt did: its result and whether the close key was sent. */
  datatype CloseOutcome = CloseOutcome(result: Result<()>, sentKey: bool)

  /**
   * `close_auth_browser_tab`: read the active title (`titleRun`); a title
   * that does not mention loopback gives success with no key sent;
   * otherwise `ctrl+w` is sent (`keyRun`) and its status is the result.
   */
  function CloseAuthBrowserTab(titleRun: Spawn, keyRun: Spawn): (o: CloseOutcome)
    ensures o.sentKey <==> ActiveWindowTitle(titleRun).Ok? && TitleMentionsLoopback(ActiveWindowTitle(titleRun).value)
    ensures ActiveWindowTitle(titleRun).Err? ==> o.result == Err(ActiveWindowTitle(titleRun).error)
    ensures o.sentKey ==> o.result == RunStatus("xdotool", keyRun)
    ensures ActiveWindowTitle(titleRun).Ok? && !o.sentKey ==> o.result == Ok(())
  {
    match ActiveWindowTitle(titleRun)
    case Err(e) => CloseOutcome(Err(e), false)
    case Ok(title) =>
      if !TitleMentionsLoopback(title) then CloseOutcome(Ok(()), false)
      else CloseOutcome(RunStatus("xdotool", keyRun), true)
  }

  /** When the title does not mention loopback, the key's run plays no part. */
  lemma {:induction false} OtherWindowLeftAlone(titleRun: Spawn, keyRun: Spawn, otherKeyRun: Spawn)
    requires ActiveWindowTitle(titleRun).Ok? && !TitleMentionsLoopback(ActiveWindowTitle(titleRun).value)
    ensures CloseAuthBrowserTab(titleRun, keyRun) == CloseAuthBrowserTab(titleRun, otherKeyRun) == CloseOutcome(Ok(()), false)
  {
  }

  // ---------------------------------------------------------------------------
  // Focusing the terminal

  /**
   * `linux_window_pattern_for_app`: four app names map to their window
   * class; any other name is its own pattern.
   */
  function WindowPatternForApp(appName: string): (pattern: string)
  {
    match appName
    case "GNOME Terminal" => "gnome-terminal"
    case "Konsole" => "konsole"
    case "Xfce Terminal" => "xfce4-terminal"
    case "Visual Studio Code" => "code"
    case _ => appName
  }

  /** The mapped names are exactly the four, and every other name passes through. */
  lemma {:induction false} WindowPatternCases(appName: string)
    ensures appName !in ["GNOME Terminal", "Konsole", "Xfce Terminal", "Visual Studio Code"] ==>
      WindowPatternForApp(appName) == appName
    ensures appName == "GNOME Terminal" ==> WindowPatternForApp(appName) == "gnome-terminal"
    ensures appName == "Konsole" ==> WindowPatternForApp(appName) == "konsole"
    ensures appName == "Xfce Terminal" ==> WindowPatternForApp(appName) == "xfce4-terminal"
    ensures appName == "Visual Studio Code" ==> WindowPatternForApp(appName) == "code"
  {
  }

  /** A pattern is its own pattern: mapping twice is mapping once. */
  lemma {:induction false} WindowPatternIdempotent(appName: string)
    ensures WindowPatternForApp(WindowPatternForApp(appName)) == WindowPatternForApp(appName)
  {
  }

  /**
   * `activate_window_for_app`: `xdotool search --name` (`xdotoolRun`) wins
   * when it succeeds; otherwise `wmctrl -xa` (`wmctrlRun`) is run and its
   * status is the result, whatever went wrong with `xdotool`.
   */
  function ActivateWindowForApp(xdotoolRun: Spawn, wmctrlRun: Spawn): (r: Result<()>)
    ensures r.Ok? <==> RunStatus("xdotool", xdotoolRun).Ok? || RunStatus("wmctrl", wmctrlRun).Ok?
    ensures RunStatus("xdotool", xdotoolRun).Err? ==> r == RunStatus("wmctrl", wmctrlRun)
  {
    if xdotoolRun.Spawned? && xdotoolRun.output.success then Ok(())
    else RunStatus("wmctrl", wmctrlRun)
  }

  /** A window `xdotool` activated is never handed to `wmctrl`. */
  lemma {:induction false} XdotoolFirst(xdotoolRun: Spawn, wmctrlRun: Spawn, otherWmctrlRun: Spawn)
    requires RunStatus("xdotool", xdotoolRun).Ok?
    ensures ActivateWindowForApp(xdotoolRun, wmctrlRun) == ActivateWindowForApp(xdotoolRun, otherWmctrlRun) == Ok(())
  {
  }

  /**
   * `focus_terminal_app`: activate the window of the terminal's pid
   * (`pidRun`); failing that, the window of the app's pattern
   * (`xdotoolRun`, `wmctrlRun`); failing both, the fixed `Config` error.
   */
  function FocusTerminalApp(target: TerminalTarget, pidRun: nat -> Spawn,
                            xdotoolRun: string -> Spawn, wmctrlRun: string -> Spawn): (r: Result<()>)
    ensures r.Ok? <==>
      (target.pid.Some? && RunStatus("xdotool", pidRun(target.pid.value)).Ok?) ||
      (target.appName.Some? &&
       var pattern := WindowPatternForApp(target.appName.value);
       ActivateWindowForApp(xdotoolRun(pattern), wmctrlRun(pattern)).Ok?)
    ensures r.Err? ==> r == Err(Config(NoWindowMessage))
  {
    if target.pid.Some? && RunStatus("xdotool", pidRun(target.pid.value)).Ok? then Ok(())
    else if target.appName.Some? &&
            var pattern := WindowPatternForApp(target.appName.value);
            ActivateWindowForApp(xdotoolRun(pattern), wmctrlRun(pattern)).Ok? then Ok(())
    else Err(Config(NoWindowMessage))
  }

  /** When the pid's window is activated, the app name and its runs play no part. */
  lemma {:induction false} PidRouteFirst(target: TerminalTarget, pidRun: nat -> Spawn,
                                         xdotoolRun: string -> Spawn, wmctrlRun: string -> Spawn)
    requires target.pid.Some? && RunStatus("xdotool", pidRun(target.pid.value)).Ok?
    ensures FocusTerminalApp(target, pidRun, xdotoolRun, wmctrlRun) == Ok(())
    ensures FocusTerminalApp(target, pidRun, xdotoolRun, wmctrlRun)
         == FocusTerminalApp(TerminalTarget(target.pid, None), pidRun, xdotoolRun, wmctrlRun)
  {
  }

  /** A target with neither a pid nor an app name cannot be focused. */
  lemma {:induction false} EmptyTargetFails(pidRun: nat -> Spawn, xdotoolRun: string -> Spawn, wmctrlRun: string -> Spawn)
    ensures FocusTerminalApp(TerminalTarget(None, None), pidRun, xdotoolRun, wmctrlRun) == Err(Config(NoWindowMessage))
  {
  }
}
