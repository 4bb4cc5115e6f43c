/**
 * The command-line classifiers on the commands of src/desktop/detect.rs's
 * own tests. Each fact about one literal is its own small lemma, and each
 * test case is assembled from them and from the general lemmas of module
 * Detect.
 */
module DetectTests {
  import opened Wrappers
  import opened Strings
  import opened Paths
  import opened Detect

  // ---------------------------------------------------------------------------
  // "wezterm-gui" is WezTerm

  lemma WeztermGuiNormal()
    ensures NormalizeCommand("wezterm-gui") == "wezterm-gui"
  {
    NormalizeNoop("wezterm-gui");
  }

  lemma WeztermGuiBase(windows: bool)
    ensures BaseName("wezterm-gui", windows) == "wezterm-gui"
  {
    assert NoPathSeparator("wezterm-gui", windows);
  }

  lemma WeztermGuiUndecorated()
    ensures Undecorated("wezterm-gui") == "wezterm-gui"
  {
    assert "wezterm-gui"[|"wezterm-gui"| - 4..] != ".exe";
    UndecoratedPlain("wezterm-gui");
  }

  lemma WeztermGuiLower()
    ensures ToLower("wezterm-gui") == "wezterm-gui"
  {
    LowerNoop("wezterm-gui");
  }

  lemma WeztermGuiNoRule()
    ensures !IsVsCodePath("wezterm-gui") && !Contains("wezterm-gui", "windows terminal")
  {
    NoSubstringRule("wezterm-gui");
  }

  lemma WeztermGuiInTable()
    ensures TerminalForBase("wezterm-gui") == Some("WezTerm")
  {
  }

  /** `terminal_app_for_command("wezterm-gui")` is WezTerm. */
  lemma WeztermGuiIsWezTerm(windows: bool)
    ensures TerminalAppForCommand("wezterm-gui", windows) == Some("WezTerm")
  {
    WeztermGuiNormal();
    WeztermGuiLower();
    WeztermGuiNoRule();
    WeztermGuiBase(windows);
    WeztermGuiUndecorated();
    TerminalByKey("wezterm-gui", "wezterm-gui", windows);
    WeztermGuiInTable();
  }

  // ---------------------------------------------------------------------------
  // "-zsh" is no terminal

  lemma DashZshNormal()
    ensures NormalizeCommand("-zsh") == "-zsh"
  {
    NormalizeNoop("-zsh");
  }

  lemma DashZshBase(windows: bool)
    ensures BaseName("-zsh", windows) == "-zsh"
  {
    assert NoPathSeparator("-zsh", windows);
  }

  lemma DashZshLower()
    ensures ToLower("-zsh") == "-zsh"
  {
    LowerNoop("-zsh");
  }

  lemma DashZshNoRule()
    ensures !IsVsCodePath("-zsh") && !Contains("-zsh", "windows terminal")
  {
    NoSubstringRule("-zsh");
  }

  lemma ZshUndecorated()
    ensures Undecorated("zsh") == "zsh"
  {
    assert |"zsh"| < |".exe"|;
    UndecoratedPlain("zsh");
  }

  lemma ZshLower()
    ensures ToLower("zsh") == "zsh"
  {
    LowerNoop("zsh");
  }

  lemma DashZshUndecorated()
    ensures Undecorated("-zsh") == "zsh"
  {
    assert "-zsh" == "-" + "zsh";
    UndecoratedDash("zsh");
    ZshUndecorated();
  }

  lemma ZshNotInTable()
    ensures TerminalForBase("zsh") == None
  {
  }

  /** `terminal_app_for_command("-zsh")` is none: a login shell is not a terminal. */
  lemma DashZshIsNotTerminal(windows: bool)
    ensures TerminalAppForCommand("-zsh", windows) == None
  {
    DashZshNormal();
    DashZshLower();
    DashZshNoRule();
    DashZshBase(windows);
    DashZshUndecorated();
    ZshLower();
    TerminalByKey("-zsh", "zsh", windows);
    ZshNotInTable();
  }

  // ---------------------------------------------------------------------------
  // Shells

  lemma BinZshNormal()
    ensures NormalizeCommand("/bin/zsh") == "/bin/zsh"
  {
    NormalizeNoop("/bin/zsh");
  }

  lemma BinZshBase(windows: bool)
    ensures BaseName("/bin/zsh", windows) == "zsh"
  {
    assert "/bin/zsh" == "/bin" + "/" + "zsh";
    BaseNameUnder("/bin", '/', "zsh", windows);
  }

  lemma ZshIsShellName()
    ensures "zsh" in ShellNames && ToLower("zsh") in NotGuiNames
  {
    ZshLower();
  }

  /** `is_shell_command("/bin/zsh")`. */
  lemma BinZshIsShell(windows: bool)
    ensures IsShellCommand("/bin/zsh", windows)
  {
    BinZshNormal();
    BinZshBase(windows);
    ZshUndecorated();
    ZshLower();
    ZshIsShellName();
  }

  lemma DashBashNormal()
    ensures NormalizeCommand("-bash") == "-bash"
  {
    NormalizeNoop("-bash");
  }

  lemma DashBashBase(windows: bool)
    ensures BaseName("-bash", windows) == "-bash"
  {
    assert NoPathSeparator("-bash", windows);
  }

  lemma DashBashUndecorated()
    ensures Undecorated("-bash") == "bash"
  {
    assert "-bash" == "-" + "bash";
    UndecoratedDash("bash");
    assert "bash"[0] != ".exe"[0];
    UndecoratedPlain("bash");
  }

  lemma BashIsShellName()
    ensures ToLower("bash") == "bash" && "bash" in ShellNames
  {
    LowerNoop("bash");
  }

  /** `is_shell_command("-bash")`: a login shell. */
  lemma DashBashIsShell(windows: bool)
    ensures IsShellCommand("-bash", windows)
  {
    DashBashNormal();
    DashBashBase(windows);
    DashBashUndecorated();
    BashIsShellName();
  }

  lemma PwshExeNormal()
    ensures NormalizeCommand("pwsh.exe") == "pwsh.exe"
  {
    NormalizeNoop("pwsh.exe");
  }

  lemma PwshExeBase(windows: bool)
    ensures BaseName("pwsh.exe", windows) == "pwsh.exe"
  {
    assert NoPathSeparator("pwsh.exe", windows);
  }

  lemma PwshExeUndecorated()
    ensures Undecorated("pwsh.exe") == "pwsh"
  {
    assert "pwsh.exe" == "pwsh" + ".exe";
    assert "pwsh" != ".exe";
    UndecoratedExe("pwsh");
  }

  lemma PwshIsShellName()
    ensures ToLower("pwsh") == "pwsh" && "pwsh" in ShellNames
  {
    LowerNoop("pwsh");
  }

  /** `is_shell_command("pwsh.exe")`: a Windows executable. */
  lemma PwshExeIsShell(windows: bool)
    ensures IsShellCommand("pwsh.exe", windows)
  {
    PwshExeNormal();
    PwshExeBase(windows);
    PwshExeUndecorated();
    PwshIsShellName();
  }

  // ---------------------------------------------------------------------------
  // GUI name guesses and title case

  lemma GhosttyIsWord()
    ensures IsWord("ghostty") && Capitalize("ghostty") == "Ghostty"
  {
  }

  /** `title_case_identifier("ghostty")` is "Ghostty". */
  lemma TitleCaseGhostty()
    ensures TitleCaseIdentifier("ghostty") == "Ghostty"
  {
    GhosttyIsWord();
    TitleCaseWord("ghostty");
  }

  lemma WeztermIsWord()
    ensures IsWord("wezterm") && Capitalize("wezterm") == "Wezterm"
  {
  }

  /** `title_case_identifier("wezterm")` is "Wezterm". */
  lemma TitleCaseWezterm()
    ensures TitleCaseIdentifier("wezterm") == "Wezterm"
  {
    WeztermIsWord();
    TitleCaseWord("wezterm");
  }

  lemma WindowsTerminalWords()
    ensures IsWord("windows") && Capitalize("windows") == "Windows"
    ensures IsWord("terminal") && Capitalize("terminal") == "Terminal"
  {
  }

  /** `title_case_identifier("windows_terminal")` is "Windows Terminal". */
  lemma TitleCaseWindowsTerminal()
    ensures TitleCaseIdentifier("windows_terminal") == "Windows Terminal"
  {
    WindowsTerminalWords();
    WindowsTerminalPieces();
    TitleCaseTwoWords("windows", '_', "terminal");
  }

  lemma WindowsTerminalPieces()
    ensures "windows_terminal" == "windows" + ['_'] + "terminal"
    ensures "Windows" + " " + "Terminal" == "Windows Terminal"
    ensures !IsAsciiAlphanumeric('_')
  {
  }

  lemma HomebrewGhosttyNormal()
    ensures NormalizeCommand("/opt/homebrew/bin/ghostty") == "/opt/homebrew/bin/ghostty"
  {
    NormalizeNoop("/opt/homebrew/bin/ghostty");
  }

  lemma HomebrewGhosttyBase(windows: bool)
    ensures BaseName("/opt/homebrew/bin/ghostty", windows) == "ghostty"
  {
    assert "/opt/homebrew/bin/ghostty" == "/opt/homebrew/bin" + "/" + "ghostty";
    BaseNameUnder("/opt/homebrew/bin", '/', "ghostty", windows);
  }

  lemma GhosttyUndecorated()
    ensures Undecorated("ghostty") == "ghostty"
  {
    assert "ghostty"[3..] != ".exe";
    UndecoratedPlain("ghostty");
  }

  lemma GhosttyTrim()
    ensures Trim("ghostty") == "ghostty"
  {
    TrimNoop("ghostty");
  }

  lemma GhosttyBase()
    ensures Trim(Undecorated("ghostty")) == "ghostty"
  {
    GhosttyUndecorated();
    GhosttyTrim();
  }

  lemma GhosttyIsGui()
    ensures ToLower("ghostty") == "ghostty" && "ghostty" !in NotGuiNames
  {
    LowerNoop("ghostty");
  }

  /** `guess_gui_app_name_from_command("/opt/homebrew/bin/ghostty")` is "Ghostty", though no table lists it. */
  lemma GuessHomebrewGhostty(windows: bool)
    ensures GuessGuiAppNameFromCommand("/opt/homebrew/bin/ghostty", windows) == Some("Ghostty")
  {
    HomebrewGhosttyNormal();
    HomebrewGhosttyBase(windows);
    GhosttyBase();
    GhosttyIsGui();
    TitleCaseGhostty();
  }

  lemma ZshTrim()
    ensures Trim("zsh") == "zsh"
  {
    TrimNoop("zsh");
  }

  lemma ZshBase()
    ensures Trim(Undecorated("zsh")) == "zsh"
  {
    ZshUndecorated();
    ZshTrim();
  }

  /** `guess_gui_app_name_from_command("/bin/zsh")` is none: a shell is never the GUI app. */
  lemma GuessBinZsh(windows: bool)
    ensures GuessGuiAppNameFromCommand("/bin/zsh", windows) == None
  {
    BinZshNormal();
    BinZshBase(windows);
    ZshBase();
    ZshIsShellName();
  }

  lemma LaunchdNormal()
    ensures NormalizeCommand("launchd") == "launchd"
  {
    NormalizeNoop("launchd");
  }

  lemma LaunchdBaseName(windows: bool)
    ensures BaseName("launchd", windows) == "launchd"
  {
    assert NoPathSeparator("launchd", windows);
  }

  lemma LaunchdUndecorated()
    ensures Undecorated("launchd") == "launchd"
  {
    assert "launchd"[3..] != ".exe";
    UndecoratedPlain("launchd");
  }

  lemma LaunchdTrim()
    ensures Trim("launchd") == "launchd"
  {
    TrimNoop("launchd");
  }

  lemma LaunchdBase()
    ensures Trim(Undecorated("launchd")) == "launchd"
  {
    LaunchdUndecorated();
    LaunchdTrim();
  }

  lemma LaunchdIsNotGui()
    ensures ToLower("launchd") in NotGuiNames
  {
    LowerNoop("launchd");
  }

  /** `guess_gui_app_name_from_command("launchd")` is none. */
  lemma GuessLaunchd(windows: bool)
    ensures GuessGuiAppNameFromCommand("launchd", windows) == None
  {
    LaunchdNormal();
    LaunchdBaseName(windows);
    LaunchdBase();
    LaunchdIsNotGui();
  }

  // ---------------------------------------------------------------------------
  // App bundles

  lemma GhosttyBundlePieces()
    ensures "/Applications/Ghostty.app/Contents/MacOS/ghostty"
            == "/Applications" + "/" + "Ghostty" + ".app/" + "Contents/MacOS/ghostty"
  {
  }

  lemma ApplicationsDir()
    ensures '.' !in "/Applications" && !IsWhitespace("/Applications"[0]) && "/Applications"[0] != '"'
  {
  }

  lemma GhosttyName(windows: bool)
    ensures "Ghostty" != [] && NoPathSeparator("Ghostty", windows) && '.' !in "Ghostty" && "Ghostty" != "iTerm2"
    ensures !IsWhitespace("Ghostty"[0]) && !IsWhitespace("Ghostty"[|"Ghostty"| - 1])
  {
  }

  lemma GhosttyRest()
    ensures var rest := "Contents/MacOS/ghostty"; !IsWhitespace(rest[|rest| - 1]) && rest[|rest| - 1] != '"'
  {
    assert "Contents/MacOS/ghostty"[21] == 'y';
  }

  /** `app_bundle_name_from_command` of Ghostty's executable is "Ghostty". */
  lemma BundleGhostty(windows: bool)
    ensures AppBundleNameFromCommand("/Applications/Ghostty.app/Contents/MacOS/ghostty", windows) == Some("Ghostty")
  {
    GhosttyBundlePieces();
    ApplicationsDir();
    GhosttyName(windows);
    GhosttyRest();
    BundleName("/Applications", "Ghostty", "Contents/MacOS/ghostty", windows);
  }

  lemma ITerm2BundlePieces()
    ensures "/Applications/iTerm2.app/Contents/MacOS/iTerm2"
            == "/Applications" + "/" + "iTerm2" + ".app/" + "Contents/MacOS/iTerm2"
  {
  }

  lemma ITerm2Name(windows: bool)
    ensures "iTerm2" != [] && NoPathSeparator("iTerm2", windows) && '.' !in "iTerm2"
    ensures !IsWhitespace("iTerm2"[0]) && !IsWhitespace("iTerm2"[|"iTerm2"| - 1])
  {
  }

  lemma ITerm2Rest()
    ensures var rest := "Contents/MacOS/iTerm2"; !IsWhitespace(rest[|rest| - 1]) && rest[|rest| - 1] != '"'
  {
    assert "Contents/MacOS/iTerm2"[20] == '2';
  }

  /** `app_bundle_name_from_command` of iTerm2's executable is "iTerm". */
  lemma BundleITerm2(windows: bool)
    ensures AppBundleNameFromCommand("/Applications/iTerm2.app/Contents/MacOS/iTerm2", windows) == Some("iTerm")
  {
    ITerm2BundlePieces();
    ApplicationsDir();
    ITerm2Name(windows);
    ITerm2Rest();
    BundleName("/Applications", "iTerm2", "Contents/MacOS/iTerm2", windows);
  }

  // ---------------------------------------------------------------------------
  // Terminals by the base name of their executable

  /** A capitalised word lower-cases to the word with its first letter lowered. */
  lemma LowerCapitalised(c: char, rest: string)
    requires 'A' <= c <= 'Z' && forall i :: 0 <= i < |rest| ==> !('A' <= rest[i] <= 'Z')
    ensures ToLower([c] + rest) == [LowerChar(c)] + rest
  {
    ToLowerConcat([c], rest);
    LowerNoop(rest);
  }

  lemma ITermPieces()
    ensures "/Applications/iTerm.app/Contents/MacOS/iTerm2"
            == "/Applications/iTerm.app/Contents/MacOS" + ['/'] + "iTerm2"
  {
  }

  lemma ITermNoV()
    ensures LacksChars("/Applications/iTerm.app/Contents/MacOS" + ['/'] + "iTerm2", "vV")
  {
  }

  lemma ITermNoW()
    ensures LacksChars("/Applications/iTerm.app/Contents/MacOS" + ['/'] + "iTerm2", "wW")
  {
  }


  lemma ITerm2Undecorated()
    ensures Undecorated("iTerm2") == "iTerm2"
  {
    assert "iTerm2"[2..] != ".exe";
    UndecoratedPlain("iTerm2");
  }

  lemma ITerm2Lower()
    ensures ToLower("iTerm2") == "iterm2"
  {
    assert "iTerm2" == "i" + ("T" + "erm2");
    LowerCapitalised('T', "erm2");
    ToLowerConcat("i", "T" + "erm2");
    LowerNoop("i");
  }

  lemma ITerm2Simple(windows: bool)
    ensures NoPathSeparator("iTerm2", windows)
  {
  }

  /** `terminal_app_for_command` of iTerm's executable is iTerm, by the base name "iTerm2". */
  lemma ITermAppIsITerm(windows: bool)
    ensures TerminalAppForCommand("/Applications/iTerm.app/Contents/MacOS/iTerm2", windows) == Some("iTerm")
  {
    ITermPieces();
    ITerm2Simple(windows);
    ITermNoV();
    ITermNoW();
    TerminalUnder("/Applications/iTerm.app/Contents/MacOS", '/', "iTerm2", windows);
    ITerm2Undecorated();
    ITerm2Lower();
    ITermInTable();
  }

  lemma ITermInTable()
    ensures TerminalForBase("iterm2") == Some("iTerm")
  {
  }


  lemma WarpPieces()
    ensures "/Applications/Warp.app/Contents/MacOS/Warp"
            == "/Applications/Warp.app/Contents/MacOS" + ['/'] + "Warp"
  {
  }

  lemma WarpNoV()
    ensures LacksChars("/Applications/Warp.app/Contents/MacOS" + ['/'] + "Warp", "vV")
  {
  }

  lemma WarpNoSpace()
    ensures LacksChars("/Applications/Warp.app/Contents/MacOS" + ['/'] + "Warp", " ")
  {
  }

  lemma WarpInTable()
    ensures TerminalForBase("warp") == Some("Warp")
  {
  }


  lemma WarpUndecorated()
    ensures Undecorated("Warp") == "Warp"
  {
    assert "Warp"[0] != ".exe"[0];
    UndecoratedPlain("Warp");
  }

  lemma WarpLower()
    ensures ToLower("Warp") == "warp"
  {
    assert "Warp" == ['W'] + "arp";
    LowerCapitalised('W', "arp");
  }

  lemma WarpSimple(windows: bool)
    ensures NoPathSeparator("Warp", windows)
  {
  }

  /** `terminal_app_for_command` of Warp's executable is Warp. */
  lemma WarpAppIsWarp(windows: bool)
    ensures TerminalAppForCommand("/Applications/Warp.app/Contents/MacOS/Warp", windows) == Some("Warp")
  {
    WarpPieces();
    WarpSimple(windows);
    WarpNoV();
    WarpNoSpace();
    TerminalUnder("/Applications/Warp.app/Contents/MacOS", '/', "Warp", windows);
    WarpUndecorated();
    WarpLower();
    WarpInTable();
  }


  lemma GnomePieces()
    ensures "/usr/bin/gnome-terminal-server" == "/usr/bin" + ['/'] + "gnome-terminal-server"
  {
  }

  lemma GnomeNoC()
    ensures LacksChars("/usr/bin" + ['/'] + "gnome-terminal-server", "cC")
  {
  }

  lemma GnomeNoW()
    ensures LacksChars("/usr/bin" + ['/'] + "gnome-terminal-server", "wW")
  {
  }


  lemma GnomeUndecorated()
    ensures Undecorated("gnome-terminal-server") == "gnome-terminal-server"
  {
    assert "gnome-terminal-server"[17..] != ".exe";
    UndecoratedPlain("gnome-terminal-server");
  }

  lemma GnomeLower()
    ensures ToLower("gnome-terminal-server") == "gnome-terminal-server"
  {
    LowerNoop("gnome-terminal-server");
  }

  lemma GnomeSimple(windows: bool)
    ensures NoPathSeparator("gnome-terminal-server", windows)
  {
  }

  /** `terminal_app_for_command("/usr/bin/gnome-terminal-server")` is GNOME Terminal. */
  lemma GnomeServerIsGnomeTerminal(windows: bool)
    ensures TerminalAppForCommand("/usr/bin/gnome-terminal-server", windows) == Some("GNOME Terminal")
  {
    GnomePieces();
    GnomeSimple(windows);
    GnomeNoC();
    GnomeNoW();
    TerminalUnder("/usr/bin", '/', "gnome-terminal-server", windows);
    GnomeUndecorated();
    GnomeLower();
    GnomeInTable();
  }

  lemma GnomeInTable()
    ensures TerminalForBase("gnome-terminal-server") == Some("GNOME Terminal")
  {
  }


  // ---------------------------------------------------------------------------
  // VS Code by its bundle path

  lemma VsCodePieces()
    ensures "/Applications/Visual Studio Code.app/Contents/MacOS/Electron"
            == "/Applications/Visual Studio Code.app" + "/Contents/MacOS/Electron"
  {
  }

  lemma VsCodeBundlePieces()
    ensures "/Applications/Visual Studio Code.app" == "/Applications/" + "Visual Studio Code.app"
  {
  }


  lemma VsCodeNormal()
    ensures NormalizeCommand("/Applications/Visual Studio Code.app/Contents/MacOS/Electron")
            == "/Applications/Visual Studio Code.app/Contents/MacOS/Electron"
  {
    VsCodeEnds();
    NormalizeNoop("/Applications/Visual Studio Code.app/Contents/MacOS/Electron");
  }

  lemma VsCodeEnds()
    ensures var c := "/Applications/Visual Studio Code.app/Contents/MacOS/Electron";
      c[0] == '/' && c[|c| - 1] == 'n'
  {
    VsCodePieces();
    var b := "/Contents/MacOS/Electron";
    assert b[|b| - 1] == 'n';
  }

  lemma VsCodeBundleWords()
    ensures "Visual Studio Code.app" == "Visual " + "Studio " + "Code.app"
    ensures "Visual " == ['V'] + "isual " && "Studio " == ['S'] + "tudio " && "Code.app" == ['C'] + "ode.app"
  {
  }

  lemma VsCodeWordsLower()
    ensures ToLower("Visual ") == "visual " && ToLower("Studio ") == "studio " && ToLower("Code.app") == "code.app"
  {
    VsCodeBundleWords();
    LowerCapitalised('V', "isual ");
    LowerCapitalised('S', "tudio ");
    LowerCapitalised('C', "ode.app");
  }

  lemma VsCodeBundleLower()
    ensures ToLower("Visual Studio Code.app") == "visual studio code.app"
  {
    VsCodeBundleWords();
    VsCodeWordsLower();
    ToLowerConcat("Visual ", "Studio ");
    ToLowerConcat("Visual " + "Studio ", "Code.app");
    assert "visual " + "studio " + "code.app" == "visual studio code.app";
  }

  /** The bundle path of VS Code, lower-cased, names VS Code. */
  lemma VsCodeLowerPath()
    ensures IsVsCodePath(ToLower("/Applications/Visual Studio Code.app/Contents/MacOS/Electron"))
  {
    var bundle := "Visual Studio Code.app";
    VsCodePieces();
    VsCodeBundlePieces();
    PrefixContained(bundle, bundle);
    ContainsRight("/Applications/", bundle, bundle);
    ContainsLeft("/Applications/" + bundle, "/Contents/MacOS/Electron", bundle);
    ContainsLower("/Applications/Visual Studio Code.app/Contents/MacOS/Electron", bundle);
    VsCodeBundleLower();
  }


  /** `terminal_app_for_command` of the VS Code Electron executable is Visual Studio Code. */
  lemma VsCodeElectronIsVsCode(windows: bool)
    ensures TerminalAppForCommand("/Applications/Visual Studio Code.app/Contents/MacOS/Electron", windows)
            == Some("Visual Studio Code")
  {
    VsCodeNormal();
    VsCodeLowerPath();
  }

  // ---------------------------------------------------------------------------
  // Terminal.app is not a shell, and the GUI guess of a bundle's executable

  lemma TerminalAppPieces()
    ensures "/Applications/Terminal.app/Contents/MacOS/Terminal"
            == "/Applications/Terminal.app/Contents/MacOS" + ['/'] + "Terminal"
  {
  }

  lemma TerminalUndecorated()
    ensures Undecorated("Terminal") == "Terminal"
  {
    assert "Terminal"[4..] != ".exe";
    UndecoratedPlain("Terminal");
  }

  lemma TerminalLower()
    ensures ToLower("Terminal") == "terminal"
  {
    assert "Terminal" == ['T'] + "erminal";
    LowerCapitalised('T', "erminal");
  }

  /** No shell name is longer than ten characters. */
  lemma ShellNamesShort()
    ensures forall n :: n in ShellNames ==> |n| <= 10
  {
  }

  lemma TerminalNotShellName()
    ensures "terminal" !in ShellNames
  {
  }

  lemma TerminalSimple(windows: bool)
    ensures NoPathSeparator("Terminal", windows)
  {
  }

  /** `is_shell_command` of Terminal.app's executable is false: a terminal is not a shell. */
  lemma TerminalAppIsNotShell(windows: bool)
    ensures !IsShellCommand("/Applications/Terminal.app/Contents/MacOS/Terminal", windows)
  {
    TerminalAppPieces();
    TerminalSimple(windows);
    CommandUnder("/Applications/Terminal.app/Contents/MacOS", '/', "Terminal", windows);
    TerminalUndecorated();
    TerminalLower();
    TerminalNotShellName();
  }

  lemma GhosttyExePieces()
    ensures "/Applications/Ghostty.app/Contents/MacOS/ghostty"
            == "/Applications/Ghostty.app/Contents/MacOS" + ['/'] + "ghostty"
  {
  }

  lemma GhosttySimple(windows: bool)
    ensures NoPathSeparator("ghostty", windows)
  {
  }

  /** `guess_gui_app_name_from_command` of Ghostty's bundled executable is "Ghostty". */
  lemma GuessGhosttyBundle(windows: bool)
    ensures GuessGuiAppNameFromCommand("/Applications/Ghostty.app/Contents/MacOS/ghostty", windows) == Some("Ghostty")
  {
    GhosttyExePieces();
    GhosttySimple(windows);
    CommandUnder("/Applications/Ghostty.app/Contents/MacOS", '/', "ghostty", windows);
    GhosttyBase();
    GhosttyIsGui();
    TitleCaseGhostty();
  }

  // ---------------------------------------------------------------------------
  // A Windows path: split at '\\' on Windows only

  lemma CmdPieces()
    ensures "C:\\Windows\\System32\\cmd.exe" == "C:\\Windows\\System32" + ['\\'] + "cmd.exe"
    ensures "C:\\Windows\\System32\\cmd.exe" == "C:\\Windows" + "\\System32" + "\\cmd" + ".exe"
  {
  }

  lemma CmdUndecorated()
    ensures Undecorated("cmd.exe") == "cmd"
  {
    assert "cmd.exe" == "cmd" + ".exe";
    assert "cmd" != ".exe";
    UndecoratedExe("cmd");
  }

  lemma CmdIsShellName()
    ensures ToLower("cmd") == "cmd" && "cmd" in ShellNames
  {
    LowerNoop("cmd");
  }

  lemma CmdSimple()
    ensures NoPathSeparator("cmd.exe", true)
  {
  }

  /** On Windows, `is_shell_command("C:\\Windows\\System32\\cmd.exe")` holds: the file name is "cmd.exe". */
  lemma WindowsCmdIsShell()
    ensures IsShellCommand("C:\\Windows\\System32\\cmd.exe", true)
  {
    CmdPieces();
    CmdSimple();
    CommandUnder("C:\\Windows\\System32", '\\', "cmd.exe", true);
    CmdUndecorated();
    CmdIsShellName();
  }

  lemma CmdPathNoSlash()
    ensures NoPathSeparator("C:\\Windows\\System32\\cmd.exe", false)
  {
    CmdPieces();
    assert '/' !in "C:\\Windows" && '/' !in "\\System32" && '/' !in "\\cmd" && '/' !in ".exe";
  }

  lemma CmdPathNormal()
    ensures NormalizeCommand("C:\\Windows\\System32\\cmd.exe") == "C:\\Windows\\System32\\cmd.exe"
  {
    var c := "C:\\Windows\\System32\\cmd.exe";
    assert c[0] == 'C' && c[|c| - 1] == 'e';
    NormalizeNoop(c);
  }

  lemma CmdPathUndecorated()
    ensures |Undecorated("C:\\Windows\\System32\\cmd.exe")| == 23
  {
    var p := "C:\\Windows" + "\\System32" + "\\cmd";
    CmdPieces();
    assert p[|p| - 4..] == "\\cmd";
    assert p[0] == 'C';
    UndecoratedExe(p);
  }

  /** Elsewhere the same command is one file name, too long to be a shell's key. */
  lemma UnixCmdPathIsNotShell()
    ensures !IsShellCommand("C:\\Windows\\System32\\cmd.exe", false)
  {
    CmdPathNormal();
    CmdPathNoSlash();
    CmdPathUndecorated();
    ShellNamesShort();
  }

  lemma CmdLower()
    ensures ToLower("C:\\Windows\\System32\\cmd.exe") == ToLower("C:\\Windows\\System32") + "\\cmd.exe"
  {
    assert "C:\\Windows\\System32\\cmd.exe" == "C:\\Windows\\System32" + "\\cmd.exe";
    ToLowerConcat("C:\\Windows\\System32", "\\cmd.exe");
    LowerNoop("\\cmd.exe");
  }

  lemma CmdNoV()
    ensures 'v' !in ToLower("C:\\Windows\\System32\\cmd.exe")
  {
    LowerMissing("C:\\Windows\\System32\\cmd.exe", 'v');
  }

  lemma CmdNoSpace()
    ensures ' ' !in ToLower("C:\\Windows\\System32\\cmd.exe")
  {
    LowerMissing("C:\\Windows\\System32\\cmd.exe", ' ');
  }

  /** The lower-cased path matches none of the substring rules: no 'v', no ' ', and it ends in "\\cmd.exe". */
  lemma CmdNoSubstringRule()
    ensures !IsVsCodePath(ToLower("C:\\Windows\\System32\\cmd.exe"))
    ensures !Contains(ToLower("C:\\Windows\\System32\\cmd.exe"), "windows terminal")
  {
    var lower := ToLower("C:\\Windows\\System32\\cmd.exe");
    CmdNoV();
    CmdNoSpace();
    CmdLower();
    MissingCharNotContained(lower, "vscode", 0);
    MissingCharNotContained(lower, "visual studio code.app", 0);
    MissingCharNotContained(lower, "windows terminal", 7);
    assert lower[|lower| - 5..][0] == 'd';
    assert lower[|lower| - 9..][1] == '\\';
  }

  lemma CmdInTable()
    ensures TerminalForBase("cmd") == Some("Windows Console Host")
  {
  }

  /** On Windows, `terminal_app_for_command("C:\\Windows\\System32\\cmd.exe")` is the Windows Console Host. */
  lemma WindowsCmdIsConsoleHost()
    ensures TerminalAppForCommand("C:\\Windows\\System32\\cmd.exe", true) == Some("Windows Console Host")
  {
    CmdPieces();
    CmdSimple();
    CommandUnder("C:\\Windows\\System32", '\\', "cmd.exe", true);
    CmdUndecorated();
    CmdIsShellName();
    CmdNoSubstringRule();
    CmdInTable();
    TerminalByKey("C:\\Windows\\System32\\cmd.exe", "cmd", true);
  }

  lemma WtPieces()
    ensures "C:\\WindowsApps\\WindowsTerminal.exe" == "C:\\WindowsApps" + ['\\'] + "WindowsTerminal.exe"
  {
  }

  lemma WtUndecorated()
    ensures Undecorated("WindowsTerminal.exe") == "WindowsTerminal"
  {
    assert "WindowsTerminal.exe" == "WindowsTerminal" + ".exe";
    assert "WindowsTerminal"[11..] != ".exe";
    UndecoratedExe("WindowsTerminal");
  }

  lemma WtLower()
    ensures ToLower("WindowsTerminal") == "windowsterminal"
  {
    assert "WindowsTerminal" == ['W'] + "indows" + (['T'] + "erminal");
    LowerCapitalised('W', "indows");
    LowerCapitalised('T', "erminal");
    ToLowerConcat(['W'] + "indows", ['T'] + "erminal");
  }

  lemma WtSimple()
    ensures NoPathSeparator("WindowsTerminal.exe", true)
  {
  }

  lemma WtNoV()
    ensures 'v' !in ToLower("C:\\WindowsApps\\WindowsTerminal.exe")
  {
    LowerMissing("C:\\WindowsApps\\WindowsTerminal.exe", 'v');
  }

  lemma WtNoSpace()
    ensures ' ' !in ToLower("C:\\WindowsApps\\WindowsTerminal.exe")
  {
    LowerMissing("C:\\WindowsApps\\WindowsTerminal.exe", ' ');
  }

  /** The lower-cased path matches no substring rule: no 'v', no ' ', and it ends in "minal.exe". */
  lemma WtNoSubstringRule()
    ensures !IsVsCodePath(ToLower("C:\\WindowsApps\\WindowsTerminal.exe"))
    ensures !Contains(ToLower("C:\\WindowsApps\\WindowsTerminal.exe"), "windows terminal")
  {
    var c := "C:\\WindowsApps\\WindowsTerminal.exe";
    var lower := ToLower(c);
    WtNoV();
    WtNoSpace();
    MissingCharNotContained(lower, "vscode", 0);
    MissingCharNotContained(lower, "visual studio code.app", 0);
    MissingCharNotContained(lower, "windows terminal", 7);
    assert c[|c| - 5] == 'l' && c[|c| - 9] == 'm';
    assert lower[|lower| - 5..][0] == 'l';
    assert lower[|lower| - 9..][0] == 'm';
  }

  lemma WtInTable()
    ensures TerminalForBase("windowsterminal") == Some("Windows Terminal")
  {
  }

  /** On Windows, a command whose file name is "WindowsTerminal.exe" is Windows Terminal, by its key. */
  lemma WindowsTerminalExeIsWindowsTerminal()
    ensures TerminalAppForCommand("C:\\WindowsApps\\WindowsTerminal.exe", true) == Some("Windows Terminal")
  {
    WtPieces();
    WtSimple();
    CommandUnder("C:\\WindowsApps", '\\', "WindowsTerminal.exe", true);
    WtUndecorated();
    WtLower();
    WtNoSubstringRule();
    WtInTable();
    TerminalByKey("C:\\WindowsApps\\WindowsTerminal.exe", "windowsterminal", true);
  }
}
