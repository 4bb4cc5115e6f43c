/**
 * The supported shells (src/shell/mod.rs and src/shell/fish.rs): the
 * registry by name, detection from `$SHELL`, and the lines the shell hook
 * installs. The `Shell` trait's default methods are functions over the
 * three shells, with fish's overrides as their own cases.
 */
module Shells {
  import opened Wrappers
  import opened Strings
  import opened Paths

  datatype Shell = Zsh | Bash | Fish

  /** A value or an error message (Rust's `Result<T, String>`). */
  datatype Fallible<+T> = Done(value: T) | Failed(message: string)

  /** `Shell::name`. */
  function Name(s: Shell): string
  {
    match s
    case Zsh => "zsh"
    case Bash => "bash"
    case Fish => "fish"
  }

  /** `shell_for_name`: exactly the three names are recognised, and each names its own shell. */
  function ShellForName(name: string): (r: Option<Shell>)
    ensures r.Some? <==> name == "zsh" || name == "bash" || name == "fish"
    ensures r.Some? ==> Name(r.value) == name
  {
    if name == "zsh" then Some(Zsh)
    else if name == "bash" then Some(Bash)
    else if name == "fish" then Some(Fish)
    else None
  }

  /** The registry and the names are inverse: every shell is found by its name. */
  lemma {:induction false} ShellForNameRoundTrip(s: Shell)
    ensures ShellForName(Name(s)) == Some(s)
  {
    match s
    case Zsh =>
    case Bash => assert Name(s) != "zsh" by { assert Name(s)[0] != "zsh"[0]; }
    case Fish => assert Name(s) != "zsh" && Name(s) != "bash" by { assert Name(s)[0] == 'f'; }
  }

  /**
   * `detect_shell_from_env`: the file name of `$SHELL` looked up by name;
   * `windows` says whether the path is read as a Windows path.
   */
  function DetectShellFromEnv(shellVar: Option<string>, windows: bool): (r: Option<Shell>)
    ensures r.Some? ==> shellVar.Some? && FileName(shellVar.value, windows) == Some(Name(r.value))
    ensures shellVar.None? ==> r.None?
    ensures shellVar.Some? && FileName(shellVar.value, windows).Some? ==>
      r == ShellForName(FileName(shellVar.value, windows).value)
    ensures shellVar.Some? && FileName(shellVar.value, windows).Some? ==>
      (r.Some? <==> FileName(shellVar.value, windows).value in ["zsh", "bash", "fish"])
  {
    match shellVar
    case None => None
    case Some(path) =>
      match FileName(path, windows)
      case None => None
      case Some(name) => ShellForName(name)
  }

  /** A `$SHELL` whose file name is a supported shell's name is always detected as that shell. */
  lemma {:induction false} DetectKnownShell(path: string, s: Shell, windows: bool)
    requires FileName(path, windows) == Some(Name(s))
    ensures DetectShellFromEnv(Some(path), windows) == Some(s)
  {
    ShellForNameRoundTrip(s);
  }

  /** "/bin/zsh" is zsh, "/usr/local/bin/fish" is fish, and "/bin/tcsh" is no supported shell. */
  lemma {:induction false} DetectExamples()
    ensures DetectShellFromEnv(Some("/bin/zsh"), false) == Some(Zsh)
    ensures DetectShellFromEnv(Some("/usr/local/bin/fish"), false) == Some(Fish)
    ensures DetectShellFromEnv(Some("/bin/tcsh"), false) == None
  {
    DetectBinZsh();
    DetectLocalFish();
    DetectBinTcsh();
  }

  lemma {:induction false} DetectBinZsh()
    ensures DetectShellFromEnv(Some("/bin/zsh"), false) == Some(Zsh)
  {
    assert LastSeparator("/bin/zsh", false) == Some(4);
    assert "/bin/zsh"[5..] == "zsh";
  }

  lemma {:induction false} DetectLocalFish()
    ensures DetectShellFromEnv(Some("/usr/local/bin/fish"), false) == Some(Fish)
  {
    assert LastSeparator("/usr/local/bin/fish", false) == Some(14);
    assert "/usr/local/bin/fish"[15..] == "fish";
  }

  lemma {:induction false} DetectBinTcsh()
    ensures DetectShellFromEnv(Some("/bin/tcsh"), false) == None
  {
    assert LastSeparator("/bin/tcsh", false) == Some(4);
    assert "/bin/tcsh"[5..] == "tcsh";
  }

  /** `install_line`: the default `eval` of the hook, overridden for fish by a pipe into `source`. */
  function InstallLine(s: Shell): (r: string)
    ensures s != Fish ==> r == "eval \"$(roleman hook " + Name(s) + ")\""
    ensures s == Fish ==> r == "roleman hook fish | source"
  {
    match s
    case Fish => "roleman hook fish | source"
    case _ => "eval \"$(roleman hook " + Name(s) + ")\""
  }

  /** `alias_line`: `rl` as an alias of `roleman`, in fish's own alias syntax for fish. */
  function AliasLine(s: Shell): (r: string)
    ensures s != Fish ==> r == "alias rl='roleman'"
    ensures s == Fish ==> r == "alias rl roleman"
  {
    match s
    case Fish => "alias rl roleman"
    case _ => "alias rl='roleman'"
  }

  /** Every shell's install line runs `roleman hook` with that shell's own name. */
  lemma {:induction false} InstallLineNamesShell(s: Shell)
    ensures Contains(InstallLine(s), "roleman hook " + Name(s))
  {
    var line := InstallLine(s);
    var sub := "roleman hook " + Name(s);
    if s == Fish {
      assert line[0..|sub|] == sub;
      assert OccursAt(line, sub, 0);
    } else {
      assert line[8..8 + |sub|] == sub;
      assert OccursAt(line, sub, 8);
    }
  }

  /** `reload_command`: `source` of the rc file. */
  function ReloadCommand(s: Shell, rcPath: string): (r: string)
    ensures StartsWith(r, "source ") && r[|"source "|..] == rcPath
  {
    "source " + rcPath
  }

  /**
   * `FishShell::rc_path`: under a set, non-empty `XDG_CONFIG_HOME`, else
   * under `HOME/.config`; without either, the error "missing HOME".
   */
  function FishRcPath(xdgConfigHome: Option<string>, home: Option<string>): (r: Fallible<string>)
    ensures r.Failed? <==> (xdgConfigHome.None? || xdgConfigHome.value == "") && home.None?
    ensures r.Failed? ==> r.message == "missing HOME"
  {
    if xdgConfigHome.Some? && xdgConfigHome.value != "" then
      Done(JoinPath(JoinPath(xdgConfigHome.value, "fish"), "config.fish"))
    else if home.None? then Failed("missing HOME")
    else Done(JoinPath(JoinPath(JoinPath(home.value, ".config"), "fish"), "config.fish"))
  }

  /** A relative name joined under a non-empty base that does not end in '/'. */
  lemma {:induction false} JoinUnder(base: string, name: string)
    requires base != [] && name != [] && name[0] != '/' && base[|base| - 1] != '/'
    ensures JoinPath(base, name) == base + "/" + name
  {
    assert !StartsWith(name, "/");
    assert !EndsWith(base, "/");
  }

  /** With `XDG_CONFIG_HOME` set, the rc file is `fish/config.fish` under it. */
  lemma {:induction false} FishRcPathXdg(x: string, home: Option<string>)
    requires x != "" && x[|x| - 1] != '/'
    ensures FishRcPath(Some(x), home) == Done(x + "/fish/config.fish")
  {
    var dir := x + "/fish";
    JoinUnder(x, "fish");
    assert JoinPath(x, "fish") == dir;
    assert dir[|dir| - 1] == 'h';
    JoinUnder(dir, "config.fish");
    assert JoinPath(dir, "config.fish") == dir + "/" + "config.fish" == x + "/fish/config.fish";
  }

  /** Otherwise it is `.config/fish/config.fish` under `HOME`. */
  lemma {:induction false} FishRcPathHome(xdgConfigHome: Option<string>, h: string)
    requires xdgConfigHome.None? || xdgConfigHome.value == ""
    requires h != "" && h[|h| - 1] != '/'
    ensures FishRcPath(xdgConfigHome, Some(h)) == Done(h + "/.config/fish/config.fish")
  {
    var config := h + "/.config";
    var dir := config + "/fish";
    JoinUnder(h, ".config");
    assert JoinPath(h, ".config") == config;
    assert config[|config| - 1] == 'g';
    JoinUnder(config, "fish");
    assert JoinPath(config, "fish") == dir;
    assert dir[|dir| - 1] == 'h';
    JoinUnder(dir, "config.fish");
    assert JoinPath(dir, "config.fish") == dir + "/" + "config.fish" == h + "/.config/fish/config.fish";
  }
}
