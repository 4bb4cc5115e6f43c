/**
 * The role picker's logic (src/tui.rs) around the skim UI: the initial
 * query, the auto-selection of a unique match, the picker height, the
 * per-account role count that decides the profile name, the active-profile
 * marker in each label, and the mapping of selected labels back to choices.
 *
 * The fuzzy matcher, the UI run, the `AWS_PROFILE` and `LINES` variables,
 * the two-argument profile namer and the cached-credentials status are
 * supplied (the last two are not part of the shown revision).
 */
module Tui {
  import opened Wrappers
  import opened Errors
  import opened Strings
  import opened Seqs
  import opened Model

  const UsizeMax: nat := 0xffff_ffff_ffff_ffff

  // ---------------------------------------------------------------------------
  // Initial query

  /** `normalize_initial_query`: the trimmed query, none when it is absent or blank. */
  function NormalizeInitialQuery(q: Option<string>): (r: Option<string>)
    ensures r.None? <==> q.None? || Trim(q.value) == ""
    ensures r.Some? ==> r.value == Trim(q.value)
  {
    match q
    case None => None
    case Some(s) => if Trim(s) == "" then None else Some(Trim(s))
  }

  /** Trimming a trimmed string changes nothing. */
  lemma {:induction false} TrimTwice(s: string)
    ensures Trim(Trim(s)) == Trim(s)
  {
    var a := TrimStartBy(s, IsWhitespace);
    var t := TrimEndBy(a, IsWhitespace);
    assert t == [] || t[0] == a[0];
    TrimNoop(t);
  }

  /** Normalising is idempotent, and a normalised query is never blank. */
  lemma {:induction false} NormalizeIdempotent(q: Option<string>)
    ensures NormalizeInitialQuery(NormalizeInitialQuery(q)) == NormalizeInitialQuery(q)
  {
    if q.Some? {
      TrimTwice(q.value);
    }
  }

  /** No query gives none; a word padded with a space on each side gives the word itself. */
  lemma {:induction false} NormalizePadded(w: string)
    requires w != [] && !IsWhitespace(w[0]) && !IsWhitespace(w[|w| - 1])
    ensures NormalizeInitialQuery(None) == None
    ensures NormalizeInitialQuery(Some(" " + w + " ")) == Some(w)
  {
    var s := " " + w + " ";
    assert s[1..] == w + " ";
    assert TrimStartBy(s, IsWhitespace) == TrimStartBy(w + " ", IsWhitespace);
    assert TrimStartBy(w + " ", IsWhitespace) == w + " ";
    assert (w + " ")[..|w|] == w;
    assert TrimEndBy(w + " ", IsWhitespace) == TrimEndBy(w, IsWhitespace);
  }

  // ---------------------------------------------------------------------------
  // Unique match

  function LabelMatches(matches: string -> bool): RoleChoice -> bool
  {
    (c: RoleChoice) => matches(Label(c))
  }

  /**
   * `find_single_query_match`: the one choice whose label the matcher
   * accepts, and none when no choice or more than one does.
   */
  function FindSingleQueryMatch(choices: seq<RoleChoice>, matches: string -> bool): (r: Option<RoleChoice>)
    ensures r.Some? <==> |Filter(choices, LabelMatches(matches))| == 1
    ensures r.Some? ==> r.value in choices && matches(Label(r.value))
    ensures r.Some? ==> forall i :: 0 <= i < |choices| && matches(Label(choices[i])) ==> choices[i] == r.value
  {
    var found := Filter(choices, LabelMatches(matches));
    if |found| == 0 then None
    else if |found| >= 2 then None
    else
      assert found[0] in choices && LabelMatches(matches)(found[0]);
      assert forall c :: c in found ==> c == found[0];
      Some(found[0])
  }

  /** Filtering keeps nothing when no element satisfies the test. */
  lemma {:induction false} FilterNone<T>(s: seq<T>, p: T -> bool)
    requires forall j :: 0 <= j < |s| ==> !p(s[j])
    ensures Filter(s, p) == []
    decreases |s|
  {
    if s != [] {
      FilterNone(s[1..], p);
    }
  }

  /** Filtering keeps exactly one element when exactly one position satisfies the test. */
  lemma {:induction false} FilterSingle<T>(s: seq<T>, p: T -> bool, i: nat)
    requires i < |s| && p(s[i])
    requires forall j :: 0 <= j < |s| && j != i ==> !p(s[j])
    ensures Filter(s, p) == [s[i]]
    decreases |s|
  {
    var rest := Filter(s[1..], p);
    if i == 0 {
      FilterNone(s[1..], p);
    } else {
      FilterSingle(s[1..], p, i - 1);
    }
  }

  /** Exactly one matching choice is selected without the UI, as the unique-match test expects. */
  lemma {:induction false} UniqueQuery(choices: seq<RoleChoice>, matches: string -> bool, i: nat)
    requires i < |choices| && matches(Label(choices[i]))
    requires forall j :: 0 <= j < |choices| && j != i ==> !matches(Label(choices[j]))
    ensures FindSingleQueryMatch(choices, matches) == Some(choices[i])
  {
    FilterSingle(choices, LabelMatches(matches), i);
  }

  /** Two choices with different matches both accepted give no auto-selection. */
  lemma {:induction false} AmbiguousQuery(choices: seq<RoleChoice>, matches: string -> bool, i: nat, j: nat)
    requires i < |choices| && j < |choices| && choices[i] != choices[j]
    requires matches(Label(choices[i])) && matches(Label(choices[j]))
    ensures FindSingleQueryMatch(choices, matches).None?
  {
  }

  // ---------------------------------------------------------------------------
  // Height

  predicate AllDigits(s: string)
  {
    forall i :: 0 <= i < |s| ==> IsDigit(s[i])
  }

  /** `str::parse::<usize>`: optional '+', then one or more ASCII digits, within range. */
  function ParseUsize(s: string): (r: Option<nat>)
    ensures r.Some? ==> r.value <= UsizeMax
  {
    var digits := if s != [] && s[0] == '+' then s[1..] else s;
    if digits == [] || !AllDigits(digits) then None
    else if DigitsValue(digits) > UsizeMax then None
    else Some(DigitsValue(digits))
  }

  /**
   * The picker height: the number of items plus three (saturating), at most
   * half the terminal's `LINES` but no less than 10, or at most 20 when
   * `LINES` is unset or not a number.
   */
  function Height(n: nat, linesVar: Option<string>): (r: nat)
    ensures var maxHeight := if linesVar.Some? && ParseUsize(linesVar.value).Some?
                             then Max(10, ParseUsize(linesVar.value).value / 2) else 20;
      r == Min(SaturatingAdd3(n), maxHeight)
    ensures r <= n + 3 && r >= Min(n + 3, 10)
  {
    var maxHeight := match linesVar
      case None => 20
      case Some(v) => match ParseUsize(v) case Some(lines) => Max(10, lines / 2) case None => 20;
    Min(SaturatingAdd3(n), maxHeight)
  }

  function SaturatingAdd3(n: nat): nat
  {
    if n + 3 > UsizeMax then UsizeMax else n + 3
  }

  function Min(a: nat, b: nat): nat
  {
    if a <= b then a else b
  }

  function Max(a: nat, b: nat): nat
  {
    if a >= b then a else b
  }

  /** Without `LINES`, two choices give a 5-line picker and forty give 20. */
  lemma {:induction false} HeightExamples()
    ensures Height(2, None) == 5 && Height(40, None) == 20
    ensures Height(40, Some("lots")) == 20
  {
    var v := "lots";
    assert v[0] == 'l' && !AllDigits(v);
  }

  // ---------------------------------------------------------------------------
  // Order of the items

  function Reversed<T>(s: seq<T>): (r: seq<T>)
    ensures |r| == |s| && forall i :: 0 <= i < |s| ==> r[i] == s[|s| - 1 - i]
  {
    seq(|s|, i requires 0 <= i < |s| => s[|s| - 1 - i])
  }

  lemma {:induction false} ReversedTwice<T>(s: seq<T>)
    ensures Reversed(Reversed(s)) == s
  {
  }

  lemma {:induction false} ReversedMultiset<T>(s: seq<T>)
    ensures multiset(Reversed(s)) == multiset(s)
    decreases |s|
  {
    if s != [] {
      var r := Reversed(s);
      var rest := Reversed(s[1..]);
      ReversedMultiset(s[1..]);
      assert r == rest + [s[0]];
      assert s == [s[0]] + s[1..];
    }
  }

  /** `ordered.reverse()`: the items are presented last choice first. */
  method ReverseInPlace<T>(a: array<T>)
    modifies a
    ensures a[..] == Reversed(old(a[..]))
  {
    var n := a.Length;
    var i := 0;
    while i < n / 2
      invariant 0 <= i <= n / 2
      invariant forall k :: 0 <= k < i ==> a[k] == old(a[n - 1 - k]) && a[n - 1 - k] == old(a[k])
      invariant forall k :: i <= k < n - i ==> a[k] == old(a[k])
    {
      a[i], a[n - 1 - i] := a[n - 1 - i], a[i];
      i := i + 1;
    }
  }

  // ---------------------------------------------------------------------------
  // Roles per account

  /** The number of choices of account `id`. */
  function CountOf(choices: seq<RoleChoice>, id: string): nat
    decreases |choices|
  {
    if choices == [] then 0
    else CountOf(choices[..|choices| - 1], id) + (if choices[|choices| - 1].accountId == id then 1 else 0)
  }

  /** The counter map after one more choice. */
  function Bump(counts: map<string, nat>, id: string): map<string, nat>
  {
    counts[id := (if id in counts then counts[id] else 0) + 1]
  }

  /** The counter map after all the choices, in order. */
  function CountsOf(choices: seq<RoleChoice>): map<string, nat>
    decreases |choices|
  {
    if choices == [] then map[] else Bump(CountsOf(choices[..|choices| - 1]), choices[|choices| - 1].accountId)
  }

  /** The counter holds exactly the accounts of the choices, each with its number of choices. */
  lemma {:induction false} CountsOfMeaning(choices: seq<RoleChoice>, id: string)
    ensures id in CountsOf(choices) <==> CountOf(choices, id) > 0
    ensures id in CountsOf(choices) ==> CountsOf(choices)[id] == CountOf(choices, id)
    decreases |choices|
  {
    if choices != [] {
      CountsOfMeaning(choices[..|choices| - 1], id);
    }
  }

  /** The first loop of `run_skim`: count the choices of each account. */
  method RolesPerAccount(choices: seq<RoleChoice>) returns (counts: map<string, nat>)
    ensures counts == CountsOf(choices)
  {
    counts := map[];
    var i := 0;
    while i < |choices|
      invariant 0 <= i <= |choices|
      invariant counts == CountsOf(choices[..i])
    {
      assert choices[..i + 1][..i] == choices[..i];
      var id := choices[i].accountId;
      counts := counts[id := (if id in counts then counts[id] else 0) + 1];
      i := i + 1;
    }
    assert choices[..i] == choices;
  }

  /** `omit_role_name`: the choice's account has exactly one role among the choices. */
  predicate OmitRoleName(counts: map<string, nat>, c: RoleChoice)
  {
    (if c.accountId in counts then counts[c.accountId] else 0) == 1
  }

  /** The role name is left out of the profile name exactly when the account has one choice. */
  lemma {:induction false} OmitRoleNameIff(choices: seq<RoleChoice>, c: RoleChoice)
    ensures OmitRoleName(CountsOf(choices), c) <==> CountOf(choices, c.accountId) == 1
  {
    CountsOfMeaning(choices, c.accountId);
  }

  // ---------------------------------------------------------------------------
  // Labels

  /** `CachedCredentialsStatus`. */
  datatype CredStatus = Valid | Expired | Missing

  /**
   * A label as the picker shows it. Without `AWS_PROFILE` it is the plain
   * label; otherwise it carries a two-character marker: "* " when the
   * profile is this choice's (by its current or its legacy name) and its
   * cached credentials are valid, "! " when they are expired, missing or
   * cannot be checked, and two spaces for any other choice.
   */
  function ItemLabel(c: RoleChoice, currentProfile: Option<string>, active: string, legacy: string,
                     status: Result<CredStatus>): (r: string)
    ensures currentProfile.None? ==> r == Label(c)
    ensures currentProfile.Some? ==> |r| == |Label(c)| + 2 && r[2..] == Label(c)
    ensures currentProfile.Some? ==>
      var marked := currentProfile.value == active || currentProfile.value == legacy;
      && (r[..2] == "* " <==> marked && status == Ok(Valid))
      && (r[..2] == "! " <==> marked && status != Ok(Valid))
      && (r[..2] == "  " <==> !marked)
  {
    match currentProfile
    case None => Label(c)
    case Some(profile) =>
      var prefix :=
        if profile == active || profile == legacy then
          (if status == Ok(Valid) then "* " else "! ")
        else "  ";
      prefix + Label(c)
  }

  /** The label of choice `c` among `choices`: the two-argument profile namer decides which profile is its own. */
  function LabelOf(c: RoleChoice, counts: map<string, nat>, currentProfile: Option<string>,
                   profileName: (RoleChoice, bool) -> string, status: RoleChoice -> Result<CredStatus>): string
  {
    ItemLabel(c, currentProfile, profileName(c, OmitRoleName(counts, c)), profileName(c, false), status(c))
  }

  /** The lookup table after inserting each (label, choice) pair in turn: a later label replaces an earlier one. */
  function LookupOf(choices: seq<RoleChoice>, labels: seq<string>): map<string, RoleChoice>
    requires |labels| == |choices|
    decreases |choices|
  {
    if choices == [] then map[]
    else LookupOf(choices[..|choices| - 1], labels[..|labels| - 1])[labels[|labels| - 1] := choices[|choices| - 1]]
  }

  /** The table knows exactly the labels, and each maps to a choice; with distinct labels, to its own. */
  lemma {:induction false} LookupOfMeaning(choices: seq<RoleChoice>, labels: seq<string>, i: nat)
    requires |labels| == |choices| && i < |labels|
    requires forall j, k :: 0 <= j < k < |labels| ==> labels[j] != labels[k]
    ensures labels[i] in LookupOf(choices, labels) && LookupOf(choices, labels)[labels[i]] == choices[i]
    decreases |choices|
  {
    var n := |choices|;
    if i < n - 1 {
      LookupOfMeaning(choices[..n - 1], labels[..n - 1], i);
    }
  }

  /** One more insertion extends the table by the next pair. */
  lemma {:induction false} LookupOfSnoc(choices: seq<RoleChoice>, labels: seq<string>, i: nat, text: string)
    requires i < |choices| && |labels| == i
    ensures LookupOf(choices[..i + 1], labels + [text]) == LookupOf(choices[..i], labels)[text := choices[i]]
  {
    assert choices[..i + 1][..i] == choices[..i];
    assert (labels + [text])[..i] == labels;
  }

  lemma {:induction false} LookupOfKeys(choices: seq<RoleChoice>, labels: seq<string>)
    requires |labels| == |choices|
    ensures forall l :: l in LookupOf(choices, labels) <==> l in labels
    ensures forall l :: l in LookupOf(choices, labels) ==> LookupOf(choices, labels)[l] in choices
    decreases |choices|
  {
    if choices != [] {
      var n := |choices|;
      LookupOfKeys(choices[..n - 1], labels[..n - 1]);
      assert labels == labels[..n - 1] + [labels[n - 1]];
    }
  }

  /**
   * The second loop of `run_skim`: the label of every choice, in order, and
   * the table from label to choice.
   */
  method BuildItems(choices: seq<RoleChoice>, counts: map<string, nat>, currentProfile: Option<string>,
                    profileName: (RoleChoice, bool) -> string, status: RoleChoice -> Result<CredStatus>)
    returns (labels: seq<string>, lookup: map<string, RoleChoice>)
    ensures |labels| == |choices|
    ensures forall i :: 0 <= i < |choices| ==> labels[i] == LabelOf(choices[i], counts, currentProfile, profileName, status)
    ensures lookup == LookupOf(choices, labels)
  {
    labels := [];
    lookup := map[];
    var i := 0;
    while i < |choices|
      invariant 0 <= i <= |choices| && |labels| == i
      invariant forall k :: 0 <= k < i ==> labels[k] == LabelOf(choices[k], counts, currentProfile, profileName, status)
      invariant lookup == LookupOf(choices[..i], labels)
    {
      var c := choices[i];
      var omit := (if c.accountId in counts then counts[c.accountId] else 0) == 1;
      var active := profileName(c, omit);
      var legacy := profileName(c, false);
      var text := ItemLabel(c, currentProfile, active, legacy, status(c));
      assert text == LabelOf(c, counts, currentProfile, profileName, status);
      LookupOfSnoc(choices, labels, i, text);
      lookup := lookup[text := c];
      labels := labels + [text];
      i := i + 1;
    }
    assert choices[..i] == choices;
  }

  /** A selected label's choice, none for a label the table does not know. */
  function LookupIn(lookup: map<string, RoleChoice>): string -> Option<RoleChoice>
  {
    l => if l in lookup then Some(lookup[l]) else None
  }

  /** The last loop of `run_skim`: the choices of the selected labels, in order, unknown labels dropped. */
  method ResolveSelection(selected: seq<string>, lookup: map<string, RoleChoice>) returns (result: seq<RoleChoice>)
    ensures result == FilterMap(selected, LookupIn(lookup))
  {
    result := [];
    var i := 0;
    while i < |selected|
      invariant 0 <= i <= |selected|
      invariant result == FilterMap(selected[..i], LookupIn(lookup))
    {
      var key := selected[i];
      FilterMapSnoc(selected[..i], key, LookupIn(lookup));
      assert selected[..i + 1] == selected[..i] + [key];
      if key in lookup {
        result := result + [lookup[key]];
      }
      i := i + 1;
    }
    assert selected[..i] == selected;
  }

  /** How the skim run ended: an error, an abort, or the selected labels and whether ctrl-o accepted them. */
  datatype SkimOutcome = SkimFailed(message: string) | Aborted | Accepted(selected: seq<string>, openInBrowser: bool)

  /**
   * The result of `run_skim`: nothing when the items cannot be sent or the
   * user aborts, the UI error as `Tui`, and otherwise the choices of the
   * selected labels.
   */
  function SkimResult(choices: seq<RoleChoice>, currentProfile: Option<string>,
                      profileName: (RoleChoice, bool) -> string, status: RoleChoice -> Result<CredStatus>,
                      sent: bool, skim: SkimOutcome): Result<(seq<RoleChoice>, bool)>
  {
    var counts := CountsOf(choices);
    var labels := seq(|choices|, i requires 0 <= i < |choices| =>
                        LabelOf(choices[i], counts, currentProfile, profileName, status));
    if !sent then Ok(([], false))
    else match skim
      case SkimFailed(m) => Err(Tui(m))
      case Aborted => Ok(([], false))
      case Accepted(selected, open) => Ok((FilterMap(selected, LookupIn(LookupOf(choices, labels))), open))
  }

  /** `run_skim`, with `sent` the outcome of handing the items to the UI and `skim` the outcome of the run. */
  method RunSkim(choices: seq<RoleChoice>, currentProfile: Option<string>,
                 profileName: (RoleChoice, bool) -> string, status: RoleChoice -> Result<CredStatus>,
                 sent: bool, skim: SkimOutcome)
    returns (r: Result<(seq<RoleChoice>, bool)>)
    ensures r == SkimResult(choices, currentProfile, profileName, status, sent, skim)
  {
    var counts := RolesPerAccount(choices);
    var labels, lookup := BuildItems(choices, counts, currentProfile, profileName, status);
    ghost var spec := seq(|choices|, i requires 0 <= i < |choices| =>
                            LabelOf(choices[i], counts, currentProfile, profileName, status));
    assert labels == spec;
    if !sent {
      return Ok(([], false));
    }
    match skim {
      case SkimFailed(m) =>
        r := Err(Tui(m));
      case Aborted =>
        r := Ok(([], false));
      case Accepted(selected, open) =>
        var result := ResolveSelection(selected, lookup);
        r := Ok((result, open));
    }
  }

  /** Every choice the picker returns is one of the choices it was given. */
  lemma {:induction false} SkimReturnsGivenChoices(choices: seq<RoleChoice>, currentProfile: Option<string>,
                                                   profileName: (RoleChoice, bool) -> string,
                                                   status: RoleChoice -> Result<CredStatus>,
                                                   sent: bool, skim: SkimOutcome)
    ensures var r := SkimResult(choices, currentProfile, profileName, status, sent, skim);
      r.Ok? ==> forall k :: 0 <= k < |r.value.0| ==> r.value.0[k] in choices
    ensures skim.Aborted? || !sent ==> SkimResult(choices, currentProfile, profileName, status, sent, skim) == Ok(([], false))
  {
    var counts := CountsOf(choices);
    var labels := seq(|choices|, i requires 0 <= i < |choices| =>
                        LabelOf(choices[i], counts, currentProfile, profileName, status));
    var lookup := LookupOf(choices, labels);
    LookupOfKeys(choices, labels);
    if sent && skim.Accepted? {
      var out := FilterMap(skim.selected, LookupIn(lookup));
      forall k | 0 <= k < |out| ensures out[k] in choices {
        var j :| 0 <= j < |skim.selected| && LookupIn(lookup)(skim.selected[j]) == Some(out[k]);
      }
    }
  }

  // ---------------------------------------------------------------------------
  // The picker

  /** `TuiSelection`. */
  datatype Selection = Selection(choice: RoleChoice, openInBrowser: bool, autoSelected: bool)

  /**
   * `select_role`. No choices: no selection, and no UI. Otherwise the
   * choices are reversed; a non-blank initial query with a unique match
   * selects it at once; else the skim run decides, and its first returned
   * choice is the selection. The picker's height is returned as well.
   * `matches(query)` is the matcher for a query; `buildError` is the
   * message of skim's options builder when it rejects the options, which
   * fails the call with a `Tui` error before anything is matched or shown.
   */
  method SelectRole(choices: seq<RoleChoice>, initialQuery: Option<string>, linesVar: Option<string>,
                    matches: string -> string -> bool, currentProfile: Option<string>,
                    profileName: (RoleChoice, bool) -> string, status: RoleChoice -> Result<CredStatus>,
                    sent: bool, skim: SkimOutcome, buildError: Option<string>)
    returns (r: Result<Option<Selection>>, height: nat)
    ensures choices == [] ==> r == Ok(None)
    ensures choices != [] && buildError.Some? ==> r == Err(Tui(buildError.value))
    ensures choices != [] && buildError.None? ==>
      var ordered := Reversed(choices);
      var query := NormalizeInitialQuery(initialQuery);
      var single := if query.Some? then FindSingleQueryMatch(ordered, matches(query.value)) else None;
      var run := SkimResult(ordered, currentProfile, profileName, status, sent, skim);
      && height == Height(|choices|, linesVar)
      && (single.Some? ==> r == Ok(Some(Selection(single.value, false, true))))
      && (single.None? && run.Err? ==> r == Err(run.error))
      && (single.None? && run.Ok? && run.value.0 == [] ==> r == Ok(None))
      && (single.None? && run.Ok? && run.value.0 != [] ==> r == Ok(Some(Selection(run.value.0[0], run.value.1, false))))
  {
    height := 0;
    if choices == [] {
      return Ok(None), height;
    }
    var ordered := new RoleChoice[|choices|](i requires 0 <= i < |choices| => choices[i]);
    assert ordered[..] == choices;
    ReverseInPlace(ordered);
    var query := NormalizeInitialQuery(initialQuery);
    height := Height(ordered.Length, linesVar);
    if buildError.Some? {
      return Err(Tui(buildError.value)), height;
    }
    if query.Some? {
      var single := FindSingleQueryMatch(ordered[..], matches(query.value));
      if single.Some? {
        return Ok(Some(Selection(single.value, false, true))), height;
      }
    }
    var run := RunSkim(ordered[..], currentProfile, profileName, status, sent, skim);
    if run.Err? {
      return Err(run.error), height;
    }
    if run.value.0 == [] {
      return Ok(None), height;
    }
    r := Ok(Some(Selection(run.value.0[0], run.value.1, false)));
  }
}
