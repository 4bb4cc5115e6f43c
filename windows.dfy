/**
 * The Windows desktop integration (src/desktop/windows.rs): every action is
 * one `powershell -NoProfile -NonInteractive -Command <script>` run, its
 * status read by `RunStatus`; focusing the terminal tries the terminal's
 * pid and then the process name of its app.
 *
 * Each run is an outcome the environment gives, as a `Spawn`; the runs
 * that depend on a pid or a quoted process name are functions of it.
 */
module Windows {
  import opened Wrappers
  import opened Errors
  import opened Strings
  import opened DesktopUtil
  import opened Detect

  /** The error `focus_terminal_app` returns when neither route activated a window. */
  const NoWindowMessage: string := "could not focus terminal window on Windows. Set ROLEMAN_TERMINAL_APP to the terminal app name and run from that terminal."

  // ---------------------------------------------------------------------------
  // Process names and quoting

  /** `windows_process_name_for_app`: the process name of six known apps. */
  function ProcessNameForApp(appName: string): (name: Option<string>)
  {
    match appName
    case "Windows Terminal" => Some("WindowsTerminal")
    case "PowerShell" => Some("pwsh")
    case "Visual Studio Code" => Some("Code")
    case "WezTerm" => Some("wezterm-gui")
    case "Alacritty" => Some("alacritty")
    case "Warp" => Some("warp")
    case _ => None
  }

  /** The six known apps. */
  const KnownApps: seq<string> := ["Windows Terminal", "PowerShell", "Visual Studio Code", "WezTerm", "Alacritty", "Warp"]

  /** Exactly the six known apps have a process name. */
  lemma {:induction false} ProcessNameKnown(appName: string)
    ensures ProcessNameForApp(appName).Some? <==> appName in KnownApps
  {
  }

  /** No two apps share a process name. */
  lemma {:induction false} ProcessNameInjective(a: string, b: string)
    requires ProcessNameForApp(a).Some? && ProcessNameForApp(a) == ProcessNameForApp(b)
    ensures a == b
  {
  }

  /** `powershell_single_quote`: every `'` doubled, for a PowerShell single-quoted string. */
  function PowershellSingleQuote(value: string): (quoted: string)
    ensures |quoted| == |value| + CountChar(value, '\'')
  {
    ReplaceChar(value, '\'', "''")
  }

  /** Reads a single-quoted PowerShell string's body back: each `''` is one `'`. */
  function CollapseDoubledQuotes(s: string): (r: string)
    ensures |r| <= |s|
    decreases |s|
  {
    if |s| >= 2 && s[0] == '\'' && s[1] == '\'' then "'" + CollapseDoubledQuotes(s[2..])
    else if s == [] then []
    else [s[0]] + CollapseDoubledQuotes(s[1..])
  }

  /** Quoting loses nothing: reading the quoted text back gives the value. */
  lemma {:induction false} QuoteRoundTrip(value: string)
    ensures CollapseDoubledQuotes(PowershellSingleQuote(value)) == value
    decreases |value|
  {
    if value != [] {
      var rest := PowershellSingleQuote(value[1..]);
      QuoteRoundTrip(value[1..]);
      if value[0] == '\'' {
        var q := "''" + rest;
        assert PowershellSingleQuote(value) == q;
        assert q[2..] == rest;
        assert value == "'" + value[1..];
      } else {
        var q := [value[0]] + rest;
        assert PowershellSingleQuote(value) == q;
        assert q[1..] == rest;
        assert value == [value[0]] + value[1..];
      }
    }
  }

  /** The quoted text holds every quote twice over. */
  lemma {:induction false} QuoteDoublesQuotes(value: string)
    ensures CountChar(PowershellSingleQuote(value), '\'') == 2 * CountChar(value, '\'')
    decreases |value|
  {
    if value != [] {
      var rest := PowershellSingleQuote(value[1..]);
      QuoteDoublesQuotes(value[1..]);
      var head := if value[0] == '\'' then "''" else [value[0]];
      assert PowershellSingleQuote(value) == head + rest;
      CountCharConcat(head, rest, '\'');
    }
  }

  /** Text without a quote is quoted as it is. */
  lemma {:induction false} QuoteNoop(value: string)
    requires '\'' !in value
    ensures PowershellSingleQuote(value) == value
    decreases |value|
  {
    if value != [] {
      assert '\'' !in value[1..] by {
        forall i | 0 <= i < |value[1..]| ensures value[1..][i] != '\'' {
          assert value[1..][i] == value[i + 1];
        }
      }
      QuoteNoop(value[1..]);
      assert value == [value[0]] + value[1..];
    }
  }

  /** No known process name holds a quote, so each is put in the script as it is. */
  lemma {:induction false} ProcessNamesNeedNoQuoting(appName: string)
    requires ProcessNameForApp(appName).Some?
    ensures PowershellSingleQuote(ProcessNameForApp(appName).value) == ProcessNameForApp(appName).value
  {
    var name := ProcessNameForApp(appName).value;
    assert '\'' !in name;
    QuoteNoop(name);
  }

  // ---------------------------------------------------------------------------
  // Focusing the terminal

  /**
   * `focus_terminal_app`: bring the pid's main window forward
   * (`pidRun`); failing that, when the app has a process name, the main
   * window of that process (`nameRun`, given the quoted name); failing both,
   * the fixed `Config` error.
   */
  function FocusTerminalApp(target: TerminalTarget, pidRun: nat -> Spawn, nameRun: string -> Spawn): (r: Result<()>)
    ensures r.Ok? <==>
      (target.pid.Some? && RunStatus("powershell", pidRun(target.pid.value)).Ok?) ||
      (target.appName.Some? && ProcessNameForApp(target.appName.value).Some? &&
       RunStatus("powershell", nameRun(PowershellSingleQuote(ProcessNameForApp(target.appName.value).value))).Ok?)
    ensures r.Err? ==> r == Err(Config(NoWindowMessage))
  {
    if target.pid.Some? && RunStatus("powershell", pidRun(target.pid.value)).Ok? then Ok(())
    else if target.appName.Some? && ProcessNameForApp(target.appName.value).Some? &&
            RunStatus("powershell", nameRun(PowershellSingleQuote(ProcessNameForApp(target.appName.value).value))).Ok?
    then Ok(())
    else Err(Config(NoWindowMessage))
  }

  /** An app without a process name is never looked up by name: the result is the pid route's. */
  lemma {:induction false} UnknownAppSkipsName(target: TerminalTarget, pidRun: nat -> Spawn, nameRun: string -> Spawn)
    requires target.appName.Some? && ProcessNameForApp(target.appName.value).None?
    ensures FocusTerminalApp(target, pidRun, nameRun) == FocusTerminalApp(TerminalTarget(target.pid, None), pidRun, nameRun)
  {
  }

  /** When the pid's window is brought forward, the app name and its run play no part. */
  lemma {:induction false} PidRouteFirst(target: TerminalTarget, pidRun: nat -> Spawn, nameRun: string -> Spawn)
    requires target.pid.Some? && RunStatus("powershell", pidRun(target.pid.value)).Ok?
    ensures FocusTerminalApp(target, pidRun, nameRun) == Ok(())
    ensures FocusTerminalApp(target, pidRun, nameRun) == FocusTerminalApp(TerminalTarget(target.pid, None), pidRun, nameRun)
  {
  }
}
