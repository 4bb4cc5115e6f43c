/**
 * The decision logic of the command-line front end (src/main.rs): merging
 * the top-level and subcommand flags into the run's options, the shell
 * hook's installation text and its detection in an rc file, the hook
 * prompt mode, and the yes/no answer test.
 */
module Cli {
  import opened Wrappers
  import opened Strings
  import opened Seqs
  import opened Shells

  /** `CommonArgs`: the flags accepted both before and after a subcommand. */
  datatype CommonArgs = CommonArgs(
    ssoStartUrl: Option<string>, ssoRegion: Option<string>, account: Option<string>,
    noCache: bool, showAll: bool, initialQuery: Option<string>, refreshSeconds: Option<nat>,
    envFile: Option<string>, printEnv: bool, configPath: Option<string>)

  /** No flag given. */
  const NoArgs := CommonArgs(None, None, None, false, false, None, None, None, false, None)

  /** `merge_common_args`: a value given to the subcommand wins over the top-level one; switches are or'ed. */
  function MergeCommonArgs(parent: CommonArgs, child: CommonArgs): (r: CommonArgs)
    ensures r.ssoStartUrl == (if child.ssoStartUrl.Some? then child.ssoStartUrl else parent.ssoStartUrl)
    ensures r.ssoRegion == (if child.ssoRegion.Some? then child.ssoRegion else parent.ssoRegion)
    ensures r.account == (if child.account.Some? then child.account else parent.account)
    ensures r.initialQuery == (if child.initialQuery.Some? then child.initialQuery else parent.initialQuery)
    ensures r.refreshSeconds == (if child.refreshSeconds.Some? then child.refreshSeconds else parent.refreshSeconds)
    ensures r.envFile == (if child.envFile.Some? then child.envFile else parent.envFile)
    ensures r.configPath == (if child.configPath.Some? then child.configPath else parent.configPath)
    ensures r.noCache == (child.noCache || parent.noCache)
    ensures r.showAll == (child.showAll || parent.showAll)
    ensures r.printEnv == (child.printEnv || parent.printEnv)
  {
    CommonArgs(
      child.ssoStartUrl.Or(parent.ssoStartUrl), child.ssoRegion.Or(parent.ssoRegion),
      child.account.Or(parent.account), child.noCache || parent.noCache, child.showAll || parent.showAll,
      child.initialQuery.Or(parent.initialQuery), child.refreshSeconds.Or(parent.refreshSeconds),
      child.envFile.Or(parent.envFile), child.printEnv || parent.printEnv, child.configPath.Or(parent.configPath))
  }

  /** Merging with no flags on either side changes nothing. */
  lemma {:induction false} MergeNoArgs(a: CommonArgs)
    ensures MergeCommonArgs(NoArgs, a) == a
    ensures MergeCommonArgs(a, NoArgs) == a
  {
  }

  /** Merging is associative, so nesting levels of flags can be folded in any grouping. */
  lemma {:induction false} MergeAssociative(a: CommonArgs, b: CommonArgs, c: CommonArgs)
    ensures MergeCommonArgs(MergeCommonArgs(a, b), c) == MergeCommonArgs(a, MergeCommonArgs(b, c))
  {
  }

  datatype AppAction = SetAction | OpenAction

  /** The `AppOptions` this revision of the front end builds. */
  datatype CliOptions = CliOptions(
    startUrl: Option<string>, ssoRegion: Option<string>, refreshSeconds: Option<nat>, configPath: Option<string>,
    ignoreCache: bool, envFile: Option<string>, printEnv: bool, account: Option<string>, showAll: bool,
    initialQuery: Option<string>, action: AppAction)

  /** `app_options_from_parts`: the flags copied over; `--account` wins over the positional account. */
  function AppOptionsFromParts(common: CommonArgs, action: AppAction, positionalAccount: Option<string>): (r: CliOptions)
    ensures r.account == (if common.account.Some? then common.account else positionalAccount)
    ensures r.startUrl == common.ssoStartUrl && r.ssoRegion == common.ssoRegion
    ensures r.refreshSeconds == common.refreshSeconds && r.configPath == common.configPath
    ensures r.ignoreCache == common.noCache && r.envFile == common.envFile && r.printEnv == common.printEnv
    ensures r.showAll == common.showAll && r.initialQuery == common.initialQuery && r.action == action
  {
    CliOptions(common.ssoStartUrl, common.ssoRegion, common.refreshSeconds, common.configPath, common.noCache,
               common.envFile, common.printEnv, common.account.Or(positionalAccount), common.showAll,
               common.initialQuery, action)
  }

  /** The subcommands. */
  datatype Command =
    | SetCommand(args: CommonArgs, positionalAccount: Option<string>)
    | OpenCommand(args: CommonArgs, positionalAccount: Option<string>)
    | HookCommand(shellName: Option<string>)
    | InstallHookCommand(force: bool, alias: bool)
    | UnsetCommand

  /** `build_app_options`: `set` and `open` merge their flags over the top-level ones; anything else is a plain set. */
  function BuildAppOptions(command: Option<Command>, common: CommonArgs): (r: CliOptions)
    ensures command.Some? && command.value.OpenCommand? <==> r.action == OpenAction
    ensures command.Some? && (command.value.SetCommand? || command.value.OpenCommand?) ==>
      r == AppOptionsFromParts(MergeCommonArgs(common, command.value.args), r.action, command.value.positionalAccount)
    ensures !(command.Some? && (command.value.SetCommand? || command.value.OpenCommand?)) ==>
      r == AppOptionsFromParts(common, SetAction, None)
  {
    match command
    case Some(SetCommand(args, account)) => AppOptionsFromParts(MergeCommonArgs(common, args), SetAction, account)
    case Some(OpenCommand(args, account)) => AppOptionsFromParts(MergeCommonArgs(common, args), OpenAction, account)
    case _ => AppOptionsFromParts(common, SetAction, None)
  }

  /** `roleman s prod` selects account "prod" for a set; `roleman o --account prod` does so for an open. */
  lemma {:induction false} AccountArguments()
    ensures var r := BuildAppOptions(Some(SetCommand(NoArgs, Some("prod"))), NoArgs);
            r.account == Some("prod") && r.action == SetAction
    ensures var r := BuildAppOptions(Some(OpenCommand(NoArgs.(account := Some("prod")), None)), NoArgs);
            r.account == Some("prod") && r.action == OpenAction
  {
  }

  /** `resolve_hook_shell`: the named shell, else the detected one, each with its error text. */
  function ResolveHookShell(shellName: Option<string>, shellVar: Option<string>, windows: bool): (r: Fallible<Shell>)
    ensures shellName.Some? ==> (r.Done? <==> ShellForName(shellName.value).Some?)
    ensures shellName.Some? && r.Done? ==> Name(r.value) == shellName.value
    ensures shellName.Some? && r.Failed? ==> r.message == "unsupported shell hook: " + shellName.value
    ensures shellName.None? ==> (r.Done? <==> DetectShellFromEnv(shellVar, windows).Some?)
    ensures shellName.None? && r.Done? ==> r.value == DetectShellFromEnv(shellVar, windows).value
  {
    match shellName
    case Some(name) =>
      (match ShellForName(name)
       case Some(s) => Done(s)
       case None => Failed("unsupported shell hook: " + name))
    case None =>
      match DetectShellFromEnv(shellVar, windows)
      case Some(s) => Done(s)
      case None => Failed("failed to auto-detect shell (set SHELL to bash, zsh, or fish, or pass `roleman hook <shell>`)")
  }

  // ---------------------------------------------------------------------------
  // Hook lines in an rc file

  /** The line filter of `remove_hook_lines`: keeps a line unless its trimmed text is a hook line. */
  predicate Kept(line: string)
  {
    var t := Trim(line);
    && t != "alias rl='roleman'"
    && t != "alias rl roleman"
    && t != "export _ROLEMAN_HOOK_VERSION=1"
    && !StartsWith(t, "eval \"$(roleman hook ")
    && !StartsWith(t, "roleman hook ")
    && !Contains(t, "_ROLEMAN_HOOK_ENV")
    && !Contains(t, "_ROLEMAN_HOOK_VERSION")
  }

  function KeptLine(): string -> bool
  {
    line => Kept(line)
  }

  /** `remove_hook_lines`: the lines that are not hook lines, joined by newlines. */
  function RemoveHookLines(contents: string): string
  {
    Join(Filter(Lines(contents), KeptLine()), "\n")
  }

  /**
   * Reading the result back line by line gives exactly the kept lines of
   * the input, in their order (an empty result when none is kept).
   */
  lemma {:induction false} RemoveHookLinesLines(contents: string)
    ensures var kept := Filter(Lines(contents), KeptLine());
      && (kept == [] ==> RemoveHookLines(contents) == "")
      && (kept != [] ==> Split(RemoveHookLines(contents), '\n') == kept)
      && (forall k :: 0 <= k < |kept| ==> Kept(kept[k]) && kept[k] in Lines(contents))
  {
    var kept := Filter(Lines(contents), KeptLine());
    if kept != [] {
      assert forall k :: 0 <= k < |kept| ==> '\n' !in kept[k];
      SplitJoin(kept, '\n');
    }
  }

  /** Every shell's install and alias lines are hook lines, so `--force` drops them. */
  lemma {:induction false} ShellLinesRemoved(s: Shell)
    ensures !Kept(InstallLine(s)) && !Kept(AliasLine(s))
  {
    var install := InstallLine(s);
    var alias := AliasLine(s);
    TrimNoop(install);
    TrimNoop(alias);
    if s == Fish {
      assert StartsWith(install, "roleman hook ");
    } else {
      assert StartsWith(install, "eval \"$(roleman hook ");
    }
  }

  /** A line of `has_active_hook`: not blank, not a comment, and naming a hook marker or the install line. */
  predicate ActiveLine(line: string, installLine: string)
  {
    var t := TrimStart(line);
    && t != []
    && t[0] != '#'
    && (Contains(t, "_ROLEMAN_HOOK_VERSION") || Contains(t, "_ROLEMAN_HOOK_ENV") || Contains(t, installLine))
  }

  /** `has_active_hook`: some line of the file is active. */
  predicate HasActiveHook(contents: string, installLine: string)
  {
    var ls := Lines(contents);
    exists k :: 0 <= k < |ls| && ActiveLine(ls[k], installLine)
  }

  /** A file made only of blank and comment lines has no active hook, whatever it mentions. */
  lemma {:induction false} CommentsAreInactive(contents: string, installLine: string)
    requires forall k :: 0 <= k < |Lines(contents)| ==>
      var t := TrimStart(Lines(contents)[k]); t == [] || t[0] == '#'
    ensures !HasActiveHook(contents, installLine)
  {
  }

  /** "contents + newline" unless the contents are empty or already end with one. */
  function Terminated(contents: string): (r: string)
    ensures r == [] || r[|r| - 1] == '\n'
    ensures StartsWith(r, contents) && |r| <= |contents| + 1
  {
    if contents != [] && contents[|contents| - 1] != '\n' then contents + "\n" else contents
  }

  /** The appended block: a blank separator, the install line, optionally the alias line, and a final newline. */
  function HookBlock(s: Shell, alias: bool): string
  {
    "\n" + InstallLine(s) + (if alias then "\n" + AliasLine(s) else "") + "\n"
  }

  /**
   * The new rc-file text of `install_hook`: refused while a hook is active
   * unless forced, in which case the old hook lines are removed first; the
   * existing text (newline-terminated) is followed by the hook block.
   */
  function InstallHook(contents: string, s: Shell, force: bool, alias: bool): (r: Fallible<string>)
    ensures r.Failed? <==> HasActiveHook(contents, InstallLine(s)) && !force
    ensures r.Failed? ==> r.message == "hook already installed (use --force to overwrite)"
    ensures r.Done? ==>
      var base := if HasActiveHook(contents, InstallLine(s)) then RemoveHookLines(contents) else contents;
      StartsWith(r.value, Terminated(base)) && r.value[|Terminated(base)|..] == HookBlock(s, alias)
  {
    if HasActiveHook(contents, InstallLine(s)) && !force then
      Failed("hook already installed (use --force to overwrite)")
    else
      var base := if HasActiveHook(contents, InstallLine(s)) then RemoveHookLines(contents) else contents;
      Done(Terminated(base) + HookBlock(s, alias))
  }

  /** A line free of the separator, framed by separators, is one of the pieces of the split (and not the last). */
  lemma {:induction false} SplitFramed(a: string, line: string, b: string, sep: char)
    requires sep !in line
    ensures var parts := Split(a + [sep] + line + [sep] + b, sep);
      exists k :: 0 <= k < |parts| - 1 && parts[k] == line
    decreases |a|
  {
    var s := a + [sep] + line + [sep] + b;
    match FindChar(a, sep)
    case None =>
      assert s == a + [sep] + (line + [sep] + b);
      SplitCons(a, sep, line + [sep] + b);
      SplitCons(line, sep, b);
      assert Split(s, sep) == [a] + ([line] + Split(b, sep));
      assert Split(s, sep)[1] == line;
    case Some(i) =>
      var head, tail := a[..i], a[i + 1..];
      assert a == head + [sep] + tail;
      assert s == head + [sep] + (tail + [sep] + line + [sep] + b);
      SplitCons(head, sep, tail + [sep] + line + [sep] + b);
      SplitFramed(tail, line, b, sep);
      var rest := Split(tail + [sep] + line + [sep] + b, sep);
      var k :| 0 <= k < |rest| - 1 && rest[k] == line;
      assert Split(s, sep) == [head] + rest;
      assert Split(s, sep)[k + 1] == line;
  }

  /** Such a framed line is one of the file's lines. */
  lemma {:induction false} LinesFramed(a: string, line: string, b: string)
    requires '\n' !in line && (line == [] || line[|line| - 1] != '\r')
    ensures var ls := Lines(a + "\n" + line + "\n" + b);
      exists k :: 0 <= k < |ls| && ls[k] == line
  {
    var s := a + "\n" + line + "\n" + b;
    assert s == a + ['\n'] + line + ['\n'] + b;
    SplitFramed(a, line, b, '\n');
    var pieces := Split(s, '\n');
    var k :| 0 <= k < |pieces| - 1 && pieces[k] == line;
    var kept := if pieces[|pieces| - 1] == [] then pieces[..|pieces| - 1] else pieces;
    assert kept[k] == line;
    assert Lines(s)[k] == StripCarriageReturn(line) == line;
  }

  /** An install line is a single line starting with neither whitespace nor '#' and not ending in '\r'. */
  lemma {:induction false} InstallLineShape(s: Shell)
    ensures var line := InstallLine(s);
      && '\n' !in line && line != [] && line[|line| - 1] != '\r' && !IsWhitespace(line[0]) && line[0] != '#'
  {
    var line := InstallLine(s);
    match s
    case Fish =>
    case Zsh => assert line == "eval \"$(roleman hook zsh)\"";
    case Bash => assert line == "eval \"$(roleman hook bash)\"";
  }

  /** The block is the install line framed by newlines, then the alias line and its newline if asked for. */
  lemma {:induction false} HookBlockFramed(s: Shell, alias: bool)
    ensures HookBlock(s, alias) == "\n" + InstallLine(s) + "\n" + (if alias then AliasLine(s) + "\n" else "")
  {
  }

  /** Whatever precedes it, the appended block makes the file's hook active. */
  lemma {:induction false} BlockIsActive(head: string, s: Shell, alias: bool)
    ensures HasActiveHook(head + HookBlock(s, alias), InstallLine(s))
  {
    var install := InstallLine(s);
    var after := if alias then AliasLine(s) + "\n" else "";
    HookBlockFramed(s, alias);
    InstallLineShape(s);
    LinesFramed(head, install, after);
    InstallLineActive(install);
    FrameRegroup(head, install, after);
    var ls := Lines(head + "\n" + install + "\n" + after);
    var k :| 0 <= k < |ls| && ls[k] == install;
    assert ActiveLine(ls[k], install);
  }

  lemma {:induction false} FrameRegroup(head: string, line: string, after: string)
    ensures head + ("\n" + line + "\n" + after) == head + "\n" + line + "\n" + after
  {
  }

  /** A line starting with neither whitespace nor '#' is active for itself. */
  lemma {:induction false} InstallLineActive(install: string)
    requires install != [] && !IsWhitespace(install[0]) && install[0] != '#'
    ensures ActiveLine(install, install)
  {
    assert TrimStart(install) == install;
    assert OccursAt(install, install, 0);
  }

  /** A newly installed hook is active: installing again without `--force` is refused. */
  lemma {:induction false} InstallThenActive(contents: string, s: Shell, force: bool, alias: bool)
    requires InstallHook(contents, s, force, alias).Done?
    ensures HasActiveHook(InstallHook(contents, s, force, alias).value, InstallLine(s))
    ensures InstallHook(InstallHook(contents, s, force, alias).value, s, false, alias).Failed?
  {
    var text := InstallHook(contents, s, force, alias).value;
    var base := if HasActiveHook(contents, InstallLine(s)) then RemoveHookLines(contents) else contents;
    var head := Terminated(base);
    assert text == head + HookBlock(s, alias);
    BlockIsActive(head, s, alias);
  }

  // ---------------------------------------------------------------------------
  // Hook prompt

  /** `HookPromptMode`. */
  datatype HookPromptMode = Always | Outdated | Never

  /**
   * `hook_prompt_mode`: an explicit mode first; otherwise the legacy switch
   * turned off means never; otherwise always. `hookPrompt` and
   * `promptForHook` are the configuration's two settings; src/main.rs reads
   * both, and neither is declared in the revision of src/config.rs modelled here.
   */
  function HookPromptModeOf(hookPrompt: Option<HookPromptMode>, promptForHook: Option<bool>): (r: HookPromptMode)
    ensures hookPrompt.Some? ==> r == hookPrompt.value
    ensures hookPrompt.None? ==> (r == Never <==> promptForHook == Some(false))
    ensures hookPrompt.None? ==> r != Outdated
  {
    match hookPrompt
    case Some(mode) => mode
    case None => if promptForHook == Some(false) then Never else Always
  }

  /** The answer test of `prompt_yes_no`: the trimmed, lower-cased input is "y" or "yes". */
  predicate IsYes(input: string)
  {
    var a := ToLower(Trim(input));
    a == "y" || a == "yes"
  }

  /** The accepted answers are exactly the case variants of "y" and "yes", surrounded by any whitespace. */
  lemma {:induction false} IsYesCasings(input: string)
    ensures var t := Trim(input);
      IsYes(input) <==>
        (|t| == 1 && (t[0] == 'y' || t[0] == 'Y'))
        || (|t| == 3 && (t[0] == 'y' || t[0] == 'Y') && (t[1] == 'e' || t[1] == 'E') && (t[2] == 's' || t[2] == 'S'))
  {
    var t := Trim(input);
    var a := ToLower(t);
    if |t| == 1 {
      assert a == "y" <==> a[0] == 'y';
    }
    if |t| == 3 {
      assert a == "yes" <==> a[0] == 'y' && a[1] == 'e' && a[2] == 's';
    }
  }
}
