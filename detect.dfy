/**
 * Finding the terminal the program runs in (src/desktop/detect.rs): the
 * classifiers that read a process's command line (known terminals, shells,
 * app bundles, a GUI name guess), the walk up the parent-process chain, and
 * the precedence between `ROLEMAN_TERMINAL_APP`, the walk and `TERM_PROGRAM`.
 *
 * The process table is a supplied function from pid to the pair (parent
 * pid, command line); a pid it does not know has no snapshot. Rust's
 * `to_lowercase` is modelled as ASCII lower-casing. The classifiers take
 * `windows`, whether the program runs on Windows, because there
 * `Path::file_name` splits a command at '\\' as well as at '/'.
 */
module Detect {
  import opened Wrappers
  import opened Strings
  import opened Seqs
  import opened Paths

  // ---------------------------------------------------------------------------
  // Command-line normalisation shared by the classifiers

  /** The command trimmed of whitespace and then of '"' on both ends. */
  function NormalizeCommand(command: string): string
  {
    TrimMatches(Trim(command), '"')
  }

  /** The command's file name, or the whole command when it has none. */
  function BaseName(normalized: string, windows: bool): (r: string)
    ensures NoPathSeparator(normalized, windows) ==> r == normalized
    ensures r == normalized || (r != [] && NoPathSeparator(r, windows))
  {
    match FileName(normalized, windows)
    case Some(name) => name
    case None => normalized
  }

  /** The file name without leading '-' (a login shell) and trailing ".exe". */
  function Undecorated(basename: string): string
  {
    TrimEndMatches(TrimStartBy(basename, IsChar('-')), ".exe")
  }

  /** The lower-case key the terminal and shell tables are looked up by. */
  function BaseKey(command: string, windows: bool): string
  {
    ToLower(Undecorated(BaseName(NormalizeCommand(command), windows)))
  }

  /** A command that is already normalised: no whitespace or '"' at either end. */
  lemma {:induction false} NormalizeNoop(s: string)
    requires s != [] && !IsWhitespace(s[0]) && !IsWhitespace(s[|s| - 1]) && s[0] != '"' && s[|s| - 1] != '"'
    ensures NormalizeCommand(s) == s
  {
    TrimNoop(s);
  }

  /** A file name under a directory, after any separator of the platform, is the base name of the path. */
  lemma {:induction false} BaseNameUnder(dir: string, sep: char, name: string, windows: bool)
    requires IsPathSeparator(sep, windows)
    requires name != [] && NoPathSeparator(name, windows) && name != "." && name != ".."
    ensures BaseName(dir + [sep] + name, windows) == name
  {
    var path := dir + [sep] + name;
    assert path[|path| - 1] == name[|name| - 1];
    assert path[|dir|] == sep;
    var i := LastSeparator(path, windows).value;
    assert i == |dir|;
    assert path[i + 1..] == name;
  }

  /**
   * A command `<dir><sep><name>` that needs no trimming is read by its last
   * component: that is its base name, and the key is the name undecorated
   * and lower-cased.
   */
  lemma {:induction false} CommandUnder(dir: string, sep: char, name: string, windows: bool)
    requires IsPathSeparator(sep, windows)
    requires dir != [] && !IsWhitespace(dir[0]) && dir[0] != '"'
    requires name != [] && NoPathSeparator(name, windows) && name != "." && name != ".."
    requires !IsWhitespace(name[|name| - 1]) && name[|name| - 1] != '"'
    ensures NormalizeCommand(dir + [sep] + name) == dir + [sep] + name
    ensures BaseName(NormalizeCommand(dir + [sep] + name), windows) == name
    ensures BaseKey(dir + [sep] + name, windows) == ToLower(Undecorated(name))
  {
    var c := dir + [sep] + name;
    assert c[0] == dir[0] && c[|c| - 1] == name[|name| - 1];
    NormalizeNoop(c);
    BaseNameUnder(dir, sep, name, windows);
  }

  /** A name that neither starts with '-' nor ends with ".exe" is left as it is. */
  lemma {:induction false} UndecoratedPlain(name: string)
    requires (name == [] || name[0] != '-') && !EndsWith(name, ".exe")
    ensures Undecorated(name) == name
  {
    assert TrimStartBy(name, IsChar('-')) == name;
  }

  /** A leading '-' is dropped. */
  lemma {:induction false} UndecoratedDash(name: string)
    requires name == [] || name[0] != '-'
    ensures Undecorated("-" + name) == Undecorated(name)
  {
    assert ("-" + name)[1..] == name;
    assert TrimStartBy("-" + name, IsChar('-')) == TrimStartBy(name, IsChar('-'));
  }

  /** A trailing ".exe" is dropped. */
  lemma {:induction false} UndecoratedExe(name: string)
    requires (name == [] || name[0] != '-') && !EndsWith(name, ".exe")
    ensures Undecorated(name + ".exe") == name
  {
    var n := name + ".exe";
    assert n == [] || n[0] != '-';
    assert TrimStartBy(n, IsChar('-')) == n;
    assert EndsWith(n, ".exe") && n[..|n| - 4] == name;
  }

  // ---------------------------------------------------------------------------
  // Known terminals

  /** The display names the terminal table can give. */
  const TerminalNames: set<string> := {
    "Terminal", "iTerm", "Warp", "WezTerm", "Alacritty", "kitty", "Hyper", "Rio",
    "GNOME Terminal", "Konsole", "Xfce Terminal", "Tilix", "Terminator", "foot", "xterm",
    "urxvt", "st", "Ptyxis", "Tabby", "Windows Terminal", "Windows Console Host",
    "PowerShell", "Visual Studio Code"
  }

  /** The fixed table of terminal executables by lower-case base name. */
  function TerminalForBase(base: string): (r: Option<string>)
    ensures r.Some? ==> r.value in TerminalNames
  {
    if base == "terminal" || base == "apple_terminal" then Some("Terminal")
    else if base == "iterm" || base == "iterm2" then Some("iTerm")
    else if base == "warp" || base == "warpterminal" then Some("Warp")
    else if base == "wezterm" || base == "wezterm-gui" then Some("WezTerm")
    else if base == "alacritty" then Some("Alacritty")
    else if base == "kitty" then Some("kitty")
    else if base == "hyper" then Some("Hyper")
    else if base == "rio" then Some("Rio")
    else if base == "gnome-terminal" || base == "gnome-terminal-server" then Some("GNOME Terminal")
    else if base == "konsole" then Some("Konsole")
    else if base == "xfce4-terminal" then Some("Xfce Terminal")
    else if base == "tilix" then Some("Tilix")
    else if base == "terminator" then Some("Terminator")
    else if base == "foot" then Some("foot")
    else if base == "xterm" then Some("xterm")
    else if base == "urxvt" then Some("urxvt")
    else if base == "st" then Some("st")
    else if base == "ptyxis" then Some("Ptyxis")
    else if base == "tabby" then Some("Tabby")
    else if base == "windowsterminal" || base == "wt" then Some("Windows Terminal")
    else if base == "cmd" || base == "conhost" then Some("Windows Console Host")
    else if base == "powershell" || base == "pwsh" then Some("PowerShell")
    else if base == "code" || base == "code-insiders" then Some("Visual Studio Code")
    else None
  }

  /** The VS Code path rules, checked on the lower-cased command before the table. */
  predicate IsVsCodePath(lower: string)
  {
    Contains(lower, "visual studio code.app") || Contains(lower, "vscode")
    || EndsWith(lower, "/code") || EndsWith(lower, "\\code.exe")
  }

  /**
   * `terminal_app_for_command`: none for a blank command; then VS Code by
   * its path, Windows Terminal by its name anywhere in the command, and
   * otherwise the table entry of the command's key.
   */
  function TerminalAppForCommand(command: string, windows: bool): (r: Option<string>)
    ensures NormalizeCommand(command) == "" ==> r.None?
    ensures NormalizeCommand(command) != "" && IsVsCodePath(ToLower(NormalizeCommand(command))) ==>
      r == Some("Visual Studio Code")
    ensures (NormalizeCommand(command) != "" && !IsVsCodePath(ToLower(NormalizeCommand(command))) &&
             Contains(ToLower(NormalizeCommand(command)), "windows terminal")) ==> r == Some("Windows Terminal")
    ensures (NormalizeCommand(command) != "" && !IsVsCodePath(ToLower(NormalizeCommand(command))) &&
             !Contains(ToLower(NormalizeCommand(command)), "windows terminal")) ==> r == TerminalForBase(BaseKey(command, windows))
    ensures r.Some? ==> r.value in TerminalNames
  {
    var normalized := NormalizeCommand(command);
    if normalized == "" then None
    else
      var lower := ToLower(normalized);
      if IsVsCodePath(lower) then Some("Visual Studio Code")
      else if Contains(lower, "windows terminal") then Some("Windows Terminal")
      else TerminalForBase(ToLower(Undecorated(BaseName(normalized, windows))))
  }

  /**
   * No substring rule applies to a command that lacks 'v' or 'c' (both VS
   * Code patterns have them), does not end in 'e', and lacks 'w' or ' '.
   */
  lemma {:induction false} NoSubstringRule(lower: string)
    requires ('v' !in lower || 'c' !in lower) && (lower == [] || lower[|lower| - 1] != 'e')
    requires 'w' !in lower || ' ' !in lower
    ensures !IsVsCodePath(lower) && !Contains(lower, "windows terminal")
  {
    if 'v' !in lower {
      MissingCharNotContained(lower, "vscode", 0);
      MissingCharNotContained(lower, "visual studio code.app", 0);
    } else {
      MissingCharNotContained(lower, "vscode", 2);
      MissingCharNotContained(lower, "visual studio code.app", 14);
    }
    if lower != [] {
      if |lower| >= 5 {
        assert lower[|lower| - 5..][4] == lower[|lower| - 1];
      }
      if |lower| >= 9 {
        assert lower[|lower| - 9..][8] == lower[|lower| - 1];
      }
    }
    if 'w' !in lower {
      MissingCharNotContained(lower, "windows terminal", 0);
    } else {
      MissingCharNotContained(lower, "windows terminal", 7);
    }
  }

  /** A normalised command that no substring rule claims is looked up by its key. */
  lemma {:induction false} TerminalByKey(c: string, key: string, windows: bool)
    requires c != "" && NormalizeCommand(c) == c
    requires !IsVsCodePath(ToLower(c)) && !Contains(ToLower(c), "windows terminal")
    requires ToLower(Undecorated(BaseName(c, windows))) == key
    ensures TerminalAppForCommand(c, windows) == TerminalForBase(key)
  {
  }

  /** No character of `s` is one of `chars`. */
  predicate LacksChars(s: string, chars: string)
  {
    forall i :: 0 <= i < |s| ==> s[i] !in chars
  }

  /**
   * No substring rule claims a command that lacks 'v' or 'c' and lacks 'w'
   * or ' ', in either case, and whose last character is no 'e' or 'E'.
   */
  lemma {:induction false} NoSubstringRuleFor(c: string)
    requires c != [] && LowerChar(c[|c| - 1]) != 'e'
    requires LacksChars(c, "vV") || LacksChars(c, "cC")
    requires LacksChars(c, "wW") || LacksChars(c, " ")
    ensures !IsVsCodePath(ToLower(c)) && !Contains(ToLower(c), "windows terminal")
  {
    if LacksChars(c, "vV") {
      LowerMissing(c, 'v');
    } else {
      LowerMissing(c, 'c');
    }
    if LacksChars(c, "wW") {
      LowerMissing(c, 'w');
    } else {
      LowerMissing(c, ' ');
    }
    NoSubstringRule(ToLower(c));
  }

  /**
   * A command `<dir><sep><name>` that needs no trimming and that no
   * substring rule can claim is the table entry of its name's key.
   */
  lemma {:induction false} TerminalUnder(dir: string, sep: char, name: string, windows: bool)
    requires IsPathSeparator(sep, windows)
    requires dir != [] && !IsWhitespace(dir[0]) && dir[0] != '"'
    requires name != [] && NoPathSeparator(name, windows) && name != "." && name != ".."
    requires !IsWhitespace(name[|name| - 1]) && name[|name| - 1] != '"' && LowerChar(name[|name| - 1]) != 'e'
    requires LacksChars(dir + [sep] + name, "vV") || LacksChars(dir + [sep] + name, "cC")
    requires LacksChars(dir + [sep] + name, "wW") || LacksChars(dir + [sep] + name, " ")
    ensures TerminalAppForCommand(dir + [sep] + name, windows) == TerminalForBase(ToLower(Undecorated(name)))
  {
    var c := dir + [sep] + name;
    assert c[|c| - 1] == name[|name| - 1];
    NoSubstringRuleFor(c);
    CommandUnder(dir, sep, name, windows);
    var key := ToLower(Undecorated(name));
    assert TerminalAppForCommand(c, windows) == TerminalForBase(key) by {
      TerminalByKey(c, key, windows);
    }
  }

  // ---------------------------------------------------------------------------
  // Shells

  const ShellNames: set<string> := {
    "bash", "zsh", "fish", "sh", "dash", "ksh", "mksh", "tcsh", "csh", "nu", "xonsh",
    "pwsh", "powershell", "cmd"
  }

  /** `is_shell_command`: the command's key is one of the known shells. */
  function IsShellCommand(command: string, windows: bool): (r: bool)
    ensures r <==> NormalizeCommand(command) != "" && BaseKey(command, windows) in ShellNames
  {
    var normalized := NormalizeCommand(command);
    normalized != "" && ToLower(Undecorated(BaseName(normalized, windows))) in ShellNames
  }

  // ---------------------------------------------------------------------------
  // Title case

  /** Rust's `str::split` with a character predicate: the pieces between separators, empty ones kept. */
  function SplitWhere(s: string, isSep: char -> bool): (parts: seq<string>)
    ensures |parts| >= 1
    ensures forall k, j :: 0 <= k < |parts| && 0 <= j < |parts[k]| ==> !isSep(parts[k][j])
    decreases |s|
  {
    if s == [] then [[]]
    else
      var rest := SplitWhere(s[1..], isSep);
      if isSep(s[0]) then [[]] + rest
      else
        assert forall j :: 1 <= j <= |rest[0]| ==> ([s[0]] + rest[0])[j] == rest[0][j - 1];
        [[s[0]] + rest[0]] + rest[1..]
  }

  function IsSeparator(): char -> bool
  {
    c => !IsAsciiAlphanumeric(c)
  }

  function NonEmpty(): string -> bool
  {
    p => p != []
  }

  /** The runs of ASCII letters and digits, in order. */
  function Words(value: string): seq<string>
  {
    Filter(SplitWhere(value, IsSeparator()), NonEmpty())
  }

  /** The first character upper-cased (ASCII), the rest as is. */
  function Capitalize(word: string): (r: string)
    ensures |r| == |word|
  {
    if word == [] then [] else [UpperChar(word[0])] + word[1..]
  }

  /**
   * `title_case_identifier`: the words, each capitalised, joined by single
   * spaces; the value itself when it has no words.
   */
  function TitleCaseIdentifier(value: string): (r: string)
    ensures Words(value) == [] ==> r == value
  {
    var words := Words(value);
    if words == [] then value
    else Join(seq(|words|, i requires 0 <= i < |words| => Capitalize(words[i])), " ")
  }

  /** A piece free of separators, then a separator, splits off as the first piece. */
  lemma {:induction false} SplitWhereCons(a: string, c: char, rest: string, isSep: char -> bool)
    requires forall j :: 0 <= j < |a| ==> !isSep(a[j])
    requires isSep(c)
    ensures SplitWhere(a + [c] + rest, isSep) == [a] + SplitWhere(rest, isSep)
    decreases |a|
  {
    var s := a + [c] + rest;
    if a == [] {
      assert s[1..] == rest;
    } else {
      assert s[1..] == a[1..] + [c] + rest;
      SplitWhereCons(a[1..], c, rest, isSep);
      assert [a[0]] + a[1..] == a;
    }
  }

  /** A piece free of separators splits into itself. */
  lemma {:induction false} SplitWhereWhole(a: string, isSep: char -> bool)
    requires forall j :: 0 <= j < |a| ==> !isSep(a[j])
    ensures SplitWhere(a, isSep) == [a]
    decreases |a|
  {
    if a != [] {
      SplitWhereWhole(a[1..], isSep);
      assert [a[0]] + a[1..] == a;
    }
  }

  /** A word for the splitter: non-empty and made of ASCII letters and digits. */
  predicate IsWord(w: string)
  {
    w != [] && forall j :: 0 <= j < |w| ==> IsAsciiAlphanumeric(w[j])
  }

  /** Words joined by single spaces split back into the words. */
  lemma {:induction false} WordsOfJoin(ws: seq<string>)
    requires |ws| >= 1 && forall k :: 0 <= k < |ws| ==> IsWord(ws[k])
    ensures SplitWhere(Join(ws, " "), IsSeparator()) == ws
    decreases |ws|
  {
    if |ws| == 1 {
      SplitWhereWhole(ws[0], IsSeparator());
    } else {
      SplitWhereCons(ws[0], ' ', Join(ws[1..], " "), IsSeparator());
      WordsOfJoin(ws[1..]);
      assert ws == [ws[0]] + ws[1..];
    }
  }

  /** Capitalising keeps a word a word, and capitalising twice is capitalising once. */
  lemma {:induction false} CapitalizeWord(w: string)
    requires IsWord(w)
    ensures IsWord(Capitalize(w)) && Capitalize(Capitalize(w)) == Capitalize(w)
  {
    var c := Capitalize(w);
    assert c[0] == UpperChar(w[0]);
    assert forall j :: 1 <= j < |w| ==> c[j] == w[j];
  }

  /** Every piece the splitter keeps is a word. */
  lemma {:induction false} WordsAreWords(value: string)
    ensures forall k :: 0 <= k < |Words(value)| ==> IsWord(Words(value)[k])
  {
    var parts := SplitWhere(value, IsSeparator());
    var ws := Words(value);
    forall k | 0 <= k < |ws| ensures IsWord(ws[k]) {
      assert ws[k] in parts && ws[k] != [];
      var m :| 0 <= m < |parts| && parts[m] == ws[k];
      assert forall j :: 0 <= j < |ws[k]| ==> !IsSeparator()(parts[m][j]);
    }
  }

  /** Title-casing is idempotent: a title-cased identifier is its own title case. */
  lemma {:induction false} TitleCaseIdempotent(value: string)
    ensures TitleCaseIdentifier(TitleCaseIdentifier(value)) == TitleCaseIdentifier(value)
  {
    var ws := Words(value);
    if ws != [] {
      WordsAreWords(value);
      var caps := seq(|ws|, i requires 0 <= i < |ws| => Capitalize(ws[i]));
      forall k | 0 <= k < |caps| ensures IsWord(caps[k]) && Capitalize(caps[k]) == caps[k] {
        CapitalizeWord(ws[k]);
      }
      var t := Join(caps, " ");
      WordsOfJoin(caps);
      FilterAll(caps, NonEmpty());
      assert Words(t) == caps;
      var again := seq(|caps|, i requires 0 <= i < |caps| => Capitalize(caps[i]));
      assert again == caps;
    }
  }

  /** Words joined by single spaces title-case to the capitalised words joined by spaces. */
  lemma {:induction false} TitleCaseOfWords(ws: seq<string>)
    requires |ws| >= 1 && forall k :: 0 <= k < |ws| ==> IsWord(ws[k])
    ensures TitleCaseIdentifier(Join(ws, " ")) == Join(seq(|ws|, i requires 0 <= i < |ws| => Capitalize(ws[i])), " ")
  {
    WordsOfJoin(ws);
    FilterAll(ws, NonEmpty());
  }

  /** One word title-cases to itself capitalised. */
  lemma {:induction false} TitleCaseWord(w: string)
    requires IsWord(w)
    ensures TitleCaseIdentifier(w) == Capitalize(w)
  {
    TitleCaseOfWords([w]);
  }

  /** Two words joined by a separator other than a space title-case to both capitalised with one space. */
  lemma {:induction false} TitleCaseTwoWords(a: string, sep: char, b: string)
    requires IsWord(a) && IsWord(b) && !IsAsciiAlphanumeric(sep)
    ensures TitleCaseIdentifier(a + [sep] + b) == Capitalize(a) + " " + Capitalize(b)
  {
    var ws := [a, b];
    SplitWhereCons(a, sep, b, IsSeparator());
    SplitWhereWhole(b, IsSeparator());
    assert SplitWhere(a + [sep] + b, IsSeparator()) == [a] + [b] == ws;
    FilterAll(ws, NonEmpty());
    assert Words(a + [sep] + b) == ws;
    var caps := seq(|ws|, i requires 0 <= i < |ws| => Capitalize(ws[i]));
    assert caps == [Capitalize(a), Capitalize(b)];
    assert Join(caps, " ") == Capitalize(a) + " " + Join(caps[1..], " ");
    assert caps[1..] == [Capitalize(b)];
  }

  // ---------------------------------------------------------------------------
  // App bundles and GUI names

  /** `Path::file_stem` of a file name: up to the last '.', unless the only '.' leads the name. */
  function StemOf(name: string): (r: string)
    ensures |r| <= |name|
  {
    if name == ".." then name
    else match LastDot(name)
      case None => name
      case Some(i) => if i == 0 then name else name[..i]
  }

  /**
   * `app_bundle_name_from_command`: the trimmed stem of the path up to the
   * first ".app", with "iTerm2" read as "iTerm"; none when the command has
   * no ".app/" or the stem is blank.
   */
  function AppBundleNameFromCommand(command: string, windows: bool): (r: Option<string>)
    ensures !Contains(NormalizeCommand(command), ".app/") ==> r.None?
    ensures r.Some? ==> r.value != ""
  {
    BundleNonBlank(NormalizeCommand(command), windows);
    BundleFromNormalized(NormalizeCommand(command), windows)
  }

  /** The bundle name of an already normalised command. */
  function BundleFromNormalized(normalized: string, windows: bool): (r: Option<string>)
    ensures FindFrom(normalized, ".app/", 0).None? ==> r.None?
  {
    match FindFrom(normalized, ".app/", 0)
    case None => None
    case Some(index) => BundleFromPrefix(normalized[..index + 4], windows)
  }

  /** The bundle name of the path up to and including ".app". */
  function BundleFromPrefix(prefix: string, windows: bool): Option<string>
  {
    match FileName(prefix, windows)
    case None => None
    case Some(name) => BundleFromFile(name)
  }

  /** The app name a bundle's file name gives: its trimmed stem, displayed. */
  function BundleFromFile(file: string): Option<string>
  {
    BundleDisplayName(Trim(StemOf(file)))
  }

  /** A bundle's stem as the app name: none when blank, and "iTerm2" read as "iTerm". */
  function BundleDisplayName(bundle: string): (r: Option<string>)
    ensures r.None? <==> bundle == ""
    ensures r.Some? ==> r.value == (if bundle == "iTerm2" then "iTerm" else bundle)
  {
    if bundle == "" then None
    else if bundle == "iTerm2" then Some("iTerm")
    else Some(bundle)
  }

  /** A bundle name is never blank. */
  lemma {:induction false} BundleNonBlank(normalized: string, windows: bool)
    ensures BundleFromNormalized(normalized, windows).Some? ==> BundleFromNormalized(normalized, windows).value != ""
  {
    match FindFrom(normalized, ".app/", 0)
    case None =>
    case Some(index) =>
      match FileName(normalized[..index + 4], windows)
      case None =>
      case Some(file) =>
        var bundle := Trim(StemOf(file));
        assert BundleDisplayName(bundle).Some? ==> BundleDisplayName(bundle).value != "";
  }

  /** With no '.' before it, the bundle's ".app/" is the first one. */
  lemma {:induction false} FindBundle(dir: string, name: string, rest: string)
    requires '.' !in name && '.' !in dir
    ensures FindFrom(dir + "/" + name + ".app/" + rest, ".app/", 0) == Some(|dir| + 1 + |name|)
  {
    var c := dir + "/" + name + ".app/" + rest;
    var at := |dir| + 1 + |name|;
    assert c[at..at + 5] == ".app/";
    assert forall j :: 0 <= j < at ==> c[j] != '.' by {
      forall j | 0 <= j < at ensures c[j] != '.' {
        if j < |dir| {
          assert c[j] == dir[j];
        } else if j > |dir| {
          assert c[j] == name[j - |dir| - 1];
        }
      }
    }
    FindFirstAt(c, ".app/", at);
  }

  /** The stem of "<name>.app", for a name without '.', is the name. */
  lemma {:induction false} StemOfApp(name: string)
    requires name != [] && '.' !in name
    ensures StemOf(name + ".app") == name
  {
    var file := name + ".app";
    assert file[|name|] == '.';
    assert forall j :: 0 <= j < |name| ==> file[j] == name[j];
    assert file[|name| + 1..] == "app";
    assert file[..|name|] == name;
  }

  /** The bundle name is read off the path up to the first ".app/". */
  lemma {:induction false} BundleOf(c: string, index: nat, prefix: string, windows: bool)
    requires FindFrom(c, ".app/", 0) == Some(index)
    requires index + 4 <= |c| && c[..index + 4] == prefix
    ensures BundleFromNormalized(c, windows) == BundleFromPrefix(prefix, windows)
  {
  }

  /**
   * A bundle `<dir>/<name>.app/<rest>`, with no '.' before ".app", is
   * named `name`, and "iTerm2" is iTerm: the bundle-path test's two cases.
   */
  lemma {:induction false} BundleName(dir: string, name: string, rest: string, windows: bool)
    requires name != [] && NoPathSeparator(name, windows) && '.' !in name && '.' !in dir
    requires !IsWhitespace(name[0]) && !IsWhitespace(name[|name| - 1])
    requires dir != [] && !IsWhitespace(dir[0]) && dir[0] != '"'
    requires rest != [] && !IsWhitespace(rest[|rest| - 1]) && rest[|rest| - 1] != '"'
    ensures AppBundleNameFromCommand(dir + "/" + name + ".app/" + rest, windows)
            == Some(if name == "iTerm2" then "iTerm" else name)
  {
    var c := dir + "/" + name + ".app/" + rest;
    assert c[0] == dir[0] && c[|c| - 1] == rest[|rest| - 1];
    AppBundleOfNormalized(c, windows);
    BundleOfPath(dir, name, rest, windows);
    BundleFromAppFile(name);
  }

  /** A normalised command's bundle name is read off the command itself. */
  lemma {:induction false} AppBundleOfNormalized(c: string, windows: bool)
    requires c != [] && !IsWhitespace(c[0]) && !IsWhitespace(c[|c| - 1]) && c[0] != '"' && c[|c| - 1] != '"'
    ensures AppBundleNameFromCommand(c, windows) == BundleFromNormalized(c, windows)
  {
    NormalizeNoop(c);
  }

  /** The bundle file of `<dir>/<name>.app/<rest>` is "<name>.app". */
  lemma {:induction false} BundleOfPath(dir: string, name: string, rest: string, windows: bool)
    requires name != [] && NoPathSeparator(name, windows) && '.' !in name && '.' !in dir
    ensures BundleFromNormalized(dir + "/" + name + ".app/" + rest, windows) == BundleFromFile(name + ".app")
  {
    var c := dir + "/" + name + ".app/" + rest;
    FindBundle(dir, name, rest);
    BundlePrefixSlice(dir, name, rest);
    BundleOf(c, |dir| + 1 + |name|, dir + "/" + name + ".app", windows);
    PrefixOfBundle(dir, name, windows);
  }

  /** The path up to the bundle's ".app". */
  lemma {:induction false} BundlePrefixSlice(dir: string, name: string, rest: string)
    ensures var c := dir + "/" + name + ".app/" + rest;
      |dir| + 1 + |name| + 4 <= |c| && c[..|dir| + 1 + |name| + 4] == dir + "/" + name + ".app"
  {
  }

  /** "<name>.app" names the app `name`, with "iTerm2" read as "iTerm". */
  lemma {:induction false} BundleFromAppFile(name: string)
    requires name != [] && '.' !in name
    requires !IsWhitespace(name[0]) && !IsWhitespace(name[|name| - 1])
    ensures BundleFromFile(name + ".app") == Some(if name == "iTerm2" then "iTerm" else name)
  {
    StemOfApp(name);
    TrimNoop(name);
  }

  /** The path up to a bundle's ".app" has the bundle's file name. */
  lemma {:induction false} PrefixOfBundle(dir: string, name: string, windows: bool)
    requires name != [] && NoPathSeparator(name, windows)
    ensures BundleFromPrefix(dir + "/" + name + ".app", windows) == BundleFromFile(name + ".app")
  {
    var file := name + ".app";
    assert dir + "/" + name + ".app" == dir + ['/'] + file;
    assert NoPathSeparator(file, windows) by {
      assert forall j :: 0 <= j < |name| ==> file[j] == name[j];
    }
    assert file != "." && file != ".." by { assert |file| > 4; }
    BaseNameUnder(dir, '/', file, windows);
  }

  /** Process names that are never taken for the GUI app (shells, build tools, init and multiplexers). */
  const NotGuiNames: set<string> := {
    "roleman", "cargo", "rustc", "bash", "zsh", "fish", "sh", "dash", "ksh", "mksh", "tcsh",
    "csh", "pwsh", "powershell", "cmd", "login", "launchd", "systemd", "init", "tmux", "screen"
  }

  /**
   * `guess_gui_app_name_from_command`: the command's base name (without
   * leading '-', trailing ".exe" and surrounding whitespace) title-cased,
   * unless it is blank or, lower-cased, one of the excluded names.
   */
  function GuessGuiAppNameFromCommand(command: string, windows: bool): (r: Option<string>)
    ensures var base := Trim(Undecorated(BaseName(NormalizeCommand(command), windows)));
      && (NormalizeCommand(command) == "" || base == "" || ToLower(base) in NotGuiNames <==> r.None?)
      && (r.Some? ==> r.value == TitleCaseIdentifier(base))
  {
    var normalized := NormalizeCommand(command);
    if normalized == "" then None
    else
      var base := Trim(Undecorated(BaseName(normalized, windows)));
      if base == "" then None
      else if ToLower(base) in NotGuiNames then None
      else Some(TitleCaseIdentifier(base))
  }

  /** `app_name_for_command`: a known terminal, else an app bundle. */
  function AppNameForCommand(command: string, windows: bool): (r: Option<string>)
    ensures TerminalAppForCommand(command, windows).Some? ==> r == TerminalAppForCommand(command, windows)
    ensures TerminalAppForCommand(command, windows).None? ==> r == AppBundleNameFromCommand(command, windows)
  {
    match TerminalAppForCommand(command, windows)
    case Some(name) => Some(name)
    case None => AppBundleNameFromCommand(command, windows)
  }

  /** The app name recorded for a parent process: a known app, else the GUI guess. */
  function ParentAppName(command: string, windows: bool): Option<string>
  {
    match AppNameForCommand(command, windows)
    case Some(name) => Some(name)
    case None => GuessGuiAppNameFromCommand(command, windows)
  }

  // ---------------------------------------------------------------------------
  // The parent-process walk

  /** A process snapshot: (parent pid, command line); 0 stands for "no parent". */
  type Snapshots = nat -> Option<(nat, string)>

  /** `TerminalProcess`: the pid of the terminal's process and its app name. */
  datatype TerminalProcess = TerminalProcess(pid: nat, appName: Option<string>)

  /**
   * The three readings of a command line the walk makes: the app it names,
   * whether it is a shell, and the app name recorded for a parent.
   */
  datatype Classifier = Classifier(appName: string -> Option<string>, isShell: string -> bool,
                                   parentApp: string -> Option<string>)

  /** The classifiers of this module, on the given platform. */
  function Commands(windows: bool): Classifier
  {
    Classifier(c => AppNameForCommand(c, windows), c => IsShellCommand(c, windows), c => ParentAppName(c, windows))
  }

  /** The walk's variables: the current pid, the pids seen, and the two remembered parents. */
  datatype Walker = Walker(pid: nat, seen: set<nat>,
                           shellParentPid: Option<nat>, shellParentApp: Option<string>,
                           firstParentPid: Option<nat>, firstParentApp: Option<string>)

  function StartWalk(selfPid: nat): Walker
  {
    Walker(selfPid, {}, None, None, None, None)
  }

  /** When the walk ends without a terminal: the last shell's parent, else the first parent. */
  function Fallback(w: Walker): (r: Option<TerminalProcess>)
    ensures r.None? <==> w.shellParentPid.None? && w.firstParentPid.None?
  {
    if w.shellParentPid.Some? then Some(TerminalProcess(w.shellParentPid.value, w.shellParentApp))
    else if w.firstParentPid.Some? then Some(TerminalProcess(w.firstParentPid.value, w.firstParentApp))
    else None
  }

  /** The first parent is remembered once, with its app name when its snapshot exists. */
  function NoteFirstParent(snapshots: Snapshots, cl: Classifier, w: Walker, ppid: nat): Walker
  {
    if w.firstParentPid.None? && ppid > 1 then
      w.(firstParentPid := Some(ppid),
         firstParentApp := if snapshots(ppid).Some? then cl.parentApp(snapshots(ppid).value.1) else w.firstParentApp)
    else w
  }

  /** A shell's parent replaces the remembered one; its app name is looked up only while none is known. */
  function NoteShellParent(snapshots: Snapshots, cl: Classifier, w: Walker, ppid: nat, command: string): Walker
  {
    if cl.isShell(command) && ppid > 1 then
      w.(shellParentPid := Some(ppid),
         shellParentApp :=
           if w.shellParentApp.None? && snapshots(ppid).Some? then cl.parentApp(snapshots(ppid).value.1)
           else w.shellParentApp)
    else w
  }

  /** The walker after a process that names no app, moved to its parent. */
  function Up(snapshots: Snapshots, cl: Classifier, w: Walker, ppid: nat, command: string): Walker
  {
    var w1 := w.(seen := w.seen + {w.pid});
    NoteShellParent(snapshots, cl, NoteFirstParent(snapshots, cl, w1, ppid), ppid, command).(pid := ppid)
  }

  /**
   * The walk with `steps` iterations left: stop at a repeated pid or a
   * process without a snapshot; a process whose command names an app is the
   * answer; stop after a process whose parent is 0 or 1; else go up.
   */
  function Walk(snapshots: Snapshots, cl: Classifier, w: Walker, steps: nat): Option<TerminalProcess>
    decreases steps
  {
    if steps == 0 || w.pid in w.seen then Fallback(w)
    else
      var w1 := w.(seen := w.seen + {w.pid});
      match snapshots(w.pid)
      case None => Fallback(w1)
      case Some(snap) =>
        var w2 := NoteFirstParent(snapshots, cl, w1, snap.0);
        if cl.appName(snap.1).Some? then Some(TerminalProcess(w.pid, cl.appName(snap.1)))
        else
          var w3 := NoteShellParent(snapshots, cl, w2, snap.0, snap.1);
          if snap.0 <= 1 then Fallback(w3) else Walk(snapshots, cl, Up(snapshots, cl, w, snap.0, snap.1), steps - 1)
  }

  /** The number of steps the walk takes at most. */
  const WalkLimit: nat := 64

  /** `detect_terminal_process_from_parent_chain`, starting from the program's own pid. */
  method DetectTerminalProcess(selfPid: nat, snapshots: Snapshots, windows: bool) returns (r: Option<TerminalProcess>)
    ensures r == Walk(snapshots, Commands(windows), StartWalk(selfPid), WalkLimit)
  {
    r := WalkParentChain(selfPid, snapshots, Commands(windows));
  }

  /** The loop of the walk, for any reading of the command lines. */
  method WalkParentChain(selfPid: nat, snapshots: Snapshots, cl: Classifier) returns (r: Option<TerminalProcess>)
    ensures r == Walk(snapshots, cl, StartWalk(selfPid), WalkLimit)
  {
    var pid := selfPid;
    var seen: set<nat> := {};
    var shellParentPid: Option<nat> := None;
    var shellParentApp: Option<string> := None;
    var firstParentPid: Option<nat> := None;
    var firstParentApp: Option<string> := None;
    var i := 0;
    ghost var answer := Walk(snapshots, cl, StartWalk(selfPid), WalkLimit);
    assert answer == Walk(snapshots, cl, Walker(pid, seen, shellParentPid, shellParentApp, firstParentPid, firstParentApp), WalkLimit - i);
    while i < WalkLimit
      invariant 0 <= i <= WalkLimit
      invariant answer
             == Walk(snapshots, cl, Walker(pid, seen, shellParentPid, shellParentApp, firstParentPid, firstParentApp), WalkLimit - i)
    {
      ghost var w := Walker(pid, seen, shellParentPid, shellParentApp, firstParentPid, firstParentApp);
      if pid in seen {
        WalkStops(snapshots, cl, w, WalkLimit - i);
        break;
      }
      seen := seen + {pid};
      var snap := snapshots(pid);
      if snap.None? {
        WalkWithoutSnapshot(snapshots, cl, w, WalkLimit - i);
        return Fallback(Walker(pid, seen, shellParentPid, shellParentApp, firstParentPid, firstParentApp));
      }
      var ppid := snap.value.0;
      var command := snap.value.1;
      if firstParentPid.None? && ppid > 1 {
        firstParentPid := Some(ppid);
        var parent := snapshots(ppid);
        if parent.Some? {
          firstParentApp := cl.parentApp(parent.value.1);
        }
      }
      ghost var w2 := Walker(pid, seen, shellParentPid, shellParentApp, firstParentPid, firstParentApp);
      assert w2 == NoteFirstParent(snapshots, cl, w.(seen := w.seen + {w.pid}), ppid);
      var appName := cl.appName(command);
      if appName.Some? {
        WalkAtApp(snapshots, cl, w, WalkLimit - i);
        return Some(TerminalProcess(pid, appName));
      }
      if cl.isShell(command) && ppid > 1 {
        shellParentPid := Some(ppid);
        if shellParentApp.None? {
          var parent := snapshots(ppid);
          if parent.Some? {
            shellParentApp := cl.parentApp(parent.value.1);
          }
        }
      }
      ghost var w3 := Walker(pid, seen, shellParentPid, shellParentApp, firstParentPid, firstParentApp);
      assert w3 == NoteShellParent(snapshots, cl, w2, ppid, command);
      if ppid <= 1 {
        WalkEndsBelowInit(snapshots, cl, w, WalkLimit - i, w3);
        return Fallback(Walker(pid, seen, shellParentPid, shellParentApp, firstParentPid, firstParentApp));
      }
      WalkGoesUp(snapshots, cl, w, WalkLimit - i, w3.(pid := ppid));
      pid := ppid;
      i := i + 1;
    }
    WalkStops(snapshots, cl, Walker(pid, seen, shellParentPid, shellParentApp, firstParentPid, firstParentApp), WalkLimit - i);
    r := Fallback(Walker(pid, seen, shellParentPid, shellParentApp, firstParentPid, firstParentApp));
  }

  /** The walk stops with the fallback at a repeated pid or when no steps are left. */
  lemma {:induction false} WalkStops(snapshots: Snapshots, cl: Classifier, w: Walker, steps: nat)
    requires steps == 0 || w.pid in w.seen
    ensures Walk(snapshots, cl, w, steps) == Fallback(w)
  {
  }

  /** The walk stops with the fallback at a process without a snapshot. */
  lemma {:induction false} WalkWithoutSnapshot(snapshots: Snapshots, cl: Classifier, w: Walker, steps: nat)
    requires steps > 0 && w.pid !in w.seen && snapshots(w.pid).None?
    ensures Walk(snapshots, cl, w, steps) == Fallback(w.(seen := w.seen + {w.pid}))
  {
  }

  /** One step of the walk at a process whose command names an app. */
  lemma {:induction false} WalkAtApp(snapshots: Snapshots, cl: Classifier, w: Walker, steps: nat)
    requires steps > 0 && w.pid !in w.seen && snapshots(w.pid).Some?
    requires cl.appName(snapshots(w.pid).value.1).Some?
    ensures Walk(snapshots, cl, w, steps)
            == Some(TerminalProcess(w.pid, cl.appName(snapshots(w.pid).value.1)))
  {
  }

  /** The walk stops with the fallback after a process whose parent is 0 or 1. */
  lemma {:induction false} WalkEndsBelowInit(snapshots: Snapshots, cl: Classifier, w: Walker, steps: nat, w3: Walker)
    requires steps > 0 && w.pid !in w.seen && snapshots(w.pid).Some?
    requires cl.appName(snapshots(w.pid).value.1).None? && snapshots(w.pid).value.0 <= 1
    requires var snap := snapshots(w.pid).value;
      w3 == NoteShellParent(snapshots, cl, NoteFirstParent(snapshots, cl, w.(seen := w.seen + {w.pid}), snap.0), snap.0, snap.1)
    ensures Walk(snapshots, cl, w, steps) == Fallback(w3)
  {
  }

  /** The walk goes on from the parent of a process whose command names no app. */
  lemma {:induction false} WalkGoesUp(snapshots: Snapshots, cl: Classifier, w: Walker, steps: nat, next: Walker)
    requires steps > 0 && w.pid !in w.seen && snapshots(w.pid).Some?
    requires cl.appName(snapshots(w.pid).value.1).None? && snapshots(w.pid).value.0 > 1
    requires next == Up(snapshots, cl, w, snapshots(w.pid).value.0, snapshots(w.pid).value.1)
    ensures Walk(snapshots, cl, w, steps) == Walk(snapshots, cl, next, steps - 1)
  {
  }

  /**
   * `chain` is a path up the process tree: each process but the last has a
   * snapshot whose command names no app and whose parent, above 1, is the
   * next one.
   */
  predicate IsPlainPath(snapshots: Snapshots, cl: Classifier, chain: seq<nat>)
  {
    forall j :: 0 <= j < |chain| - 1 ==> PlainLink(snapshots, cl, chain[j], chain[j + 1])
  }

  predicate PlainLink(snapshots: Snapshots, cl: Classifier, pid: nat, parent: nat)
  {
    snapshots(pid).Some? && snapshots(pid).value.0 == parent && parent > 1 && cl.appName(snapshots(pid).value.1).None?
  }

  /** One step up a plain path leaves a plain path. */
  lemma {:induction false} PlainPathTail(snapshots: Snapshots, cl: Classifier, chain: seq<nat>)
    requires |chain| >= 1 && IsPlainPath(snapshots, cl, chain)
    ensures IsPlainPath(snapshots, cl, chain[1..])
  {
    forall j | 0 <= j < |chain[1..]| - 1 ensures PlainLink(snapshots, cl, chain[1..][j], chain[1..][j + 1]) {
      assert PlainLink(snapshots, cl, chain[j + 1], chain[j + 2]);
    }
  }

  /**
   * The walk answers with the first process up the chain whose command
   * names an app: when the processes below it name none, the path repeats
   * no pid and fits in the remaining steps, that process and its app name
   * are the result, whatever the walk remembered.
   */
  lemma {:induction false} WalkFindsFirstApp(snapshots: Snapshots, cl: Classifier, w: Walker, steps: nat, chain: seq<nat>)
    requires |chain| >= 1 && chain[0] == w.pid && |chain| <= steps
    requires IsPlainPath(snapshots, cl, chain)
    requires forall j, k :: 0 <= j < k < |chain| ==> chain[j] != chain[k]
    requires forall j :: 0 <= j < |chain| ==> chain[j] !in w.seen
    requires var last := chain[|chain| - 1];
      snapshots(last).Some? && cl.appName(snapshots(last).value.1).Some?
    ensures var last := chain[|chain| - 1];
      Walk(snapshots, cl, w, steps) == Some(TerminalProcess(last, cl.appName(snapshots(last).value.1)))
    decreases steps
  {
    if |chain| > 1 {
      assert PlainLink(snapshots, cl, chain[0], chain[1]);
      var snap := snapshots(w.pid).value;
      var next := Up(snapshots, cl, w, snap.0, snap.1);
      assert Walk(snapshots, cl, w, steps) == Walk(snapshots, cl, next, steps - 1);
      PlainPathTail(snapshots, cl, chain);
      var tail := chain[1..];
      assert next.seen == w.seen + {chain[0]};
      forall j | 0 <= j < |tail| ensures tail[j] !in next.seen {
        assert tail[j] == chain[j + 1] && chain[j + 1] != chain[0];
      }
      forall j, k | 0 <= j < k < |tail| ensures tail[j] != tail[k] {
        assert tail[j] == chain[j + 1] && tail[k] == chain[k + 1];
      }
      assert tail[|tail| - 1] == chain[|chain| - 1];
      WalkFindsFirstApp(snapshots, cl, next, steps - 1, tail);
    }
  }

  /** Once a first parent is remembered, the walk always names some process. */
  lemma {:induction false} WalkKeepsFirstParent(snapshots: Snapshots, cl: Classifier, w: Walker, steps: nat)
    requires w.firstParentPid.Some?
    ensures Walk(snapshots, cl, w, steps).Some?
    decreases steps
  {
    if steps > 0 && w.pid !in w.seen && snapshots(w.pid).Some? {
      var snap := snapshots(w.pid).value;
      if cl.appName(snap.1).None? && snap.0 > 1 {
        WalkKeepsFirstParent(snapshots, cl, Up(snapshots, cl, w, snap.0, snap.1), steps - 1);
      }
    }
  }

  /**
   * The walk finds no process exactly when the program's own process has
   * no snapshot, or has no parent above 1 and names no app.
   */
  lemma {:induction false} WalkNone(snapshots: Snapshots, cl: Classifier, selfPid: nat)
    ensures Walk(snapshots, cl, StartWalk(selfPid), WalkLimit).None? <==>
      snapshots(selfPid).None?
      || (snapshots(selfPid).value.0 <= 1 && cl.appName(snapshots(selfPid).value.1).None?)
  {
    var w := StartWalk(selfPid);
    if snapshots(selfPid).Some? {
      var snap := snapshots(selfPid).value;
      if cl.appName(snap.1).None? && snap.0 > 1 {
        WalkKeepsFirstParent(snapshots, cl, Up(snapshots, cl, w, snap.0, snap.1), WalkLimit - 1);
      }
    }
  }

  // ---------------------------------------------------------------------------
  // The target

  /** `roleman_terminal_app_override`: `ROLEMAN_TERMINAL_APP` trimmed, none when unset or blank. */
  function TerminalAppOverride(value: Option<string>): (r: Option<string>)
    ensures r.None? <==> value.None? || Trim(value.value) == ""
    ensures r.Some? ==> r.value == Trim(value.value)
  {
    match value
    case None => None
    case Some(v) => if Trim(v) == "" then None else Some(Trim(v))
  }

  /** `terminal_app_from_term_program`: the known `TERM_PROGRAM` values by name, any other title-cased. */
  function TerminalAppFromTermProgram(value: Option<string>): (r: Option<string>)
    ensures r.None? <==> value.None? || Trim(value.value) == ""
  {
    match value
    case None => None
    case Some(v) =>
      var t := Trim(v);
      if t == "" then None
      else if t == "Apple_Terminal" then Some("Terminal")
      else if t == "iTerm.app" then Some("iTerm")
      else if t == "WarpTerminal" then Some("Warp")
      else if t == "WezTerm" then Some("WezTerm")
      else if t == "vscode" then Some("Visual Studio Code")
      else if t == "gnome-terminal" then Some("GNOME Terminal")
      else if t == "konsole" then Some("Konsole")
      else if t == "xfce4-terminal" then Some("Xfce Terminal")
      else if t == "Windows_Terminal" then Some("Windows Terminal")
      else Some(TitleCaseIdentifier(t))
  }

  /** `TerminalTarget`: the terminal's pid (used on Linux and Windows) and its app name. */
  datatype TerminalTarget = TerminalTarget(pid: Option<nat>, appName: Option<string>)

  /**
   * `detect_terminal_target`: the pid of the walk's process, and the app
   * name of the override, else of the walk's process, else of `TERM_PROGRAM`.
   */
  function DetectTerminalTarget(appOverride: Option<string>, process: Option<TerminalProcess>,
                                termProgram: Option<string>): (r: TerminalTarget)
    ensures r.pid == (if process.Some? then Some(process.value.pid) else None)
    ensures TerminalAppOverride(appOverride).Some? ==> r.appName == TerminalAppOverride(appOverride)
    ensures TerminalAppOverride(appOverride).None? && process.Some? && process.value.appName.Some? ==>
      r.appName == process.value.appName
    ensures TerminalAppOverride(appOverride).None? && (process.None? || process.value.appName.None?) ==>
      r.appName == TerminalAppFromTermProgram(termProgram)
    ensures r.appName.None? <==>
      TerminalAppOverride(appOverride).None? && (process.None? || process.value.appName.None?)
      && TerminalAppFromTermProgram(termProgram).None?
  {
    var fromProcess := match process case Some(p) => p.appName case None => None;
    var appName :=
      match TerminalAppOverride(appOverride)
      case Some(a) => Some(a)
      case None =>
        match fromProcess
        case Some(a) => Some(a)
        case None => TerminalAppFromTermProgram(termProgram);
    TerminalTarget(match process case Some(p) => Some(p.pid) case None => None, appName)
  }
}
