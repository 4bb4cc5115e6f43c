/**
 * The selection history (src/history.rs): a JSON-lines log of the roles the
 * user picked; per (account, role) statistics drawn from the entries of one
 * identity; the ranking of role choices by those statistics; the
 * newest-first listing; and the tab-separated display line of an entry.
 *
 * The clock, the working directory and the outcome of every file-system
 * call are parameters; JSON is a supplied encoder and decoder; the
 * floating-point `exp` and `ln` of the score are supplied functions, combined
 * with the source's weights.
 */
module History {
  import opened Wrappers
  import opened Errors
  import opened Strings
  import opened Seqs
  import opened Paths
  import opened StableSort
  import opened Model

  /** One line of the log. `selectedAt` is in Unix seconds. */
  datatype HistoryEntry = HistoryEntry(
    selectedAt: int, identity: string, accountId: string, accountName: string,
    roleName: string, cwd: Option<string>)

  /** Statistics are kept per account id and role name; the account name plays no part. */
  datatype Key = Key(accountId: string, roleName: string)

  /**
   * `HistoryStats`. The recency score is the largest `exp(-age / 14 days)`
   * over the key's entries; `exp` is decreasing, so it is determined by the
   * smallest age, which is what is kept here.
   */
  datatype Stats = Stats(minAge: int, frequency30d: nat, cwdMatches: bool)

  const I64Min: int := -0x8000_0000_0000_0000
  const I64Max: int := 0x7fff_ffff_ffff_ffff
  const U32Max: nat := 0xffff_ffff

  /** `FREQUENCY_WINDOW_DAYS * 86_400`. */
  const FrequencyWindowSecs: int := 30 * 86400

  function Min(a: int, b: int): int
  {
    if a <= b then a else b
  }

  /** `i64::saturating_sub`. */
  function SaturatingSub(a: int, b: int): int
  {
    var d := a - b;
    if d > I64Max then I64Max else if d < I64Min then I64Min else d
  }

  /** `u32::saturating_add(1)`. */
  function SaturatingIncrement(n: nat): nat
  {
    if n >= U32Max then U32Max else n + 1
  }

  /** `now_unix.saturating_sub(entry.selected_at_unix)`. */
  function Age(now: int, e: HistoryEntry): int
  {
    SaturatingSub(now, e.selectedAt)
  }

  function KeyOf(e: HistoryEntry): Key
  {
    Key(e.accountId, e.roleName)
  }

  /** The entry belongs to `identity` and is recorded under `k`. */
  predicate Counts(e: HistoryEntry, identity: string, k: Key)
  {
    e.identity == identity && KeyOf(e) == k
  }

  /** The entry falls in the frequency window: its age is at most 30 days (future entries too). */
  predicate InWindow(e: HistoryEntry, now: int)
  {
    Age(now, e) <= FrequencyWindowSecs
  }

  /** A working directory is known and the entry was made in it. */
  predicate SameCwd(e: HistoryEntry, cwd: Option<string>)
  {
    cwd.Some? && e.cwd == cwd
  }

  // ---------------------------------------------------------------------------
  // build_stats

  /** The statistics of a key after one more of its entries (none before: the default). */
  function Update(prior: Option<Stats>, e: HistoryEntry, now: int, cwd: Option<string>): Stats
  {
    var age := Age(now, e);
    match prior
    case None => Stats(age, if InWindow(e, now) then 1 else 0, SameCwd(e, cwd))
    case Some(s) =>
      Stats(Min(s.minAge, age),
            if InWindow(e, now) then SaturatingIncrement(s.frequency30d) else s.frequency30d,
            s.cwdMatches || SameCwd(e, cwd))
  }

  function Step(stats: map<Key, Stats>, e: HistoryEntry, identity: string, now: int, cwd: Option<string>)
    : map<Key, Stats>
  {
    if e.identity != identity then stats
    else
      var k := KeyOf(e);
      stats[k := Update(if k in stats then Some(stats[k]) else None, e, now, cwd)]
  }

  /** The statistics of a list of entries: each entry applied in turn. */
  function StatsOf(entries: seq<HistoryEntry>, identity: string, now: int, cwd: Option<string>)
    : map<Key, Stats>
    decreases |entries|
  {
    if entries == [] then map[]
    else Step(StatsOf(entries[..|entries| - 1], identity, now, cwd), entries[|entries| - 1], identity, now, cwd)
  }

  /** `build_stats`: the loop over the entries of the identity, updating a map in place. */
  method BuildStats(entries: seq<HistoryEntry>, identity: string, now: int, cwd: Option<string>)
    returns (stats: map<Key, Stats>)
    ensures stats == StatsOf(entries, identity, now, cwd)
  {
    stats := map[];
    var i := 0;
    while i < |entries|
      invariant 0 <= i <= |entries|
      invariant stats == StatsOf(entries[..i], identity, now, cwd)
    {
      var e := entries[i];
      assert entries[..i + 1][..i] == entries[..i];
      if e.identity == identity {
        var k := Key(e.accountId, e.roleName);
        var age := SaturatingSub(now, e.selectedAt);
        var isNew := k !in stats;
        var s := if isNew then Stats(age, 0, false) else stats[k];
        s := s.(minAge := Min(s.minAge, age));
        if age <= FrequencyWindowSecs {
          s := s.(frequency30d := if isNew then 1 else SaturatingIncrement(s.frequency30d));
        }
        if cwd.Some? && e.cwd == cwd {
          s := s.(cwdMatches := true);
        }
        stats := stats[k := s];
      }
      i := i + 1;
    }
    assert entries[..i] == entries;
  }

  /** A key has statistics exactly when some entry of the identity is recorded under it. */
  lemma {:induction false} StatsKeys(entries: seq<HistoryEntry>, identity: string, now: int, cwd: Option<string>,
                                     k: Key)
    ensures k in StatsOf(entries, identity, now, cwd)
        <==> exists i :: 0 <= i < |entries| && Counts(entries[i], identity, k)
    decreases |entries|
  {
    if entries != [] {
      var init := entries[..|entries| - 1];
      StatsKeys(init, identity, now, cwd, k);
      if exists i :: 0 <= i < |init| && Counts(init[i], identity, k) {
        var i :| 0 <= i < |init| && Counts(init[i], identity, k);
        assert entries[i] == init[i];
      }
      if exists i :: 0 <= i < |entries| && Counts(entries[i], identity, k) {
        var i :| 0 <= i < |entries| && Counts(entries[i], identity, k);
        if i < |init| {
          assert init[i] == entries[i];
        }
      }
    }
  }

  /** No entry of the identity, no statistics at all. */
  lemma {:induction false} NoEntriesNoStats(entries: seq<HistoryEntry>, identity: string, now: int,
                                            cwd: Option<string>)
    ensures StatsOf(entries, identity, now, cwd) == map[]
        <==> forall i :: 0 <= i < |entries| ==> entries[i].identity != identity
  {
    var stats := StatsOf(entries, identity, now, cwd);
    if stats != map[] {
      var k :| k in stats;
      StatsKeys(entries, identity, now, cwd, k);
    }
    if exists i :: 0 <= i < |entries| && entries[i].identity == identity {
      var i :| 0 <= i < |entries| && entries[i].identity == identity;
      StatsKeys(entries, identity, now, cwd, KeyOf(entries[i]));
    }
  }

  /** The test "is an entry of `identity` under `k` inside the window", as a predicate value. */
  function RecentFor(identity: string, k: Key, now: int): HistoryEntry -> bool
  {
    (e: HistoryEntry) => Counts(e, identity, k) && InWindow(e, now)
  }

  /** `frequency_30d` is the number of the key's entries in the window, saturated at the u32 maximum. */
  lemma {:induction false} StatsFrequency(entries: seq<HistoryEntry>, identity: string, now: int,
                                          cwd: Option<string>, k: Key)
    ensures var stats := StatsOf(entries, identity, now, cwd);
      (if k in stats then stats[k].frequency30d else 0) == Min(|Filter(entries, RecentFor(identity, k, now))|, U32Max)
    decreases |entries|
  {
    if entries != [] {
      var init := entries[..|entries| - 1];
      var last := entries[|entries| - 1];
      var recent := RecentFor(identity, k, now);
      StatsFrequency(init, identity, now, cwd, k);
      assert entries == init + [last];
      FilterAppend(init, [last], recent);
      FilterOne(last, recent);
      FrequencyStep(StatsOf(init, identity, now, cwd), last, identity, now, cwd, k);
    }
  }

  /** One entry adds one to its key's window count when it is recent, saturating. */
  lemma {:induction false} FrequencyStep(prior: map<Key, Stats>, e: HistoryEntry, identity: string, now: int,
                                         cwd: Option<string>, k: Key)
    ensures var next := Step(prior, e, identity, now, cwd);
      var before := if k in prior then prior[k].frequency30d else 0;
      (if k in next then next[k].frequency30d else 0)
        == if Counts(e, identity, k) && InWindow(e, now) then SaturatingIncrement(before) else before
  {
  }

  lemma {:induction false} FilterOne(e: HistoryEntry, p: HistoryEntry -> bool)
    ensures |Filter([e], p)| == if p(e) then 1 else 0
  {
    assert [e][1..] == [];
  }

  /** `cwd_matches` holds exactly when a working directory is known and an entry of the key was made there. */
  lemma {:induction false} StatsCwd(entries: seq<HistoryEntry>, identity: string, now: int, cwd: Option<string>,
                                    k: Key)
    ensures var stats := StatsOf(entries, identity, now, cwd);
      (k in stats && stats[k].cwdMatches)
        <==> exists i :: 0 <= i < |entries| && Counts(entries[i], identity, k) && SameCwd(entries[i], cwd)
    decreases |entries|
  {
    if entries != [] {
      var init := entries[..|entries| - 1];
      StatsCwd(init, identity, now, cwd, k);
      if exists i :: 0 <= i < |init| && Counts(init[i], identity, k) && SameCwd(init[i], cwd) {
        var i :| 0 <= i < |init| && Counts(init[i], identity, k) && SameCwd(init[i], cwd);
        assert entries[i] == init[i];
      }
      if exists i :: 0 <= i < |entries| && Counts(entries[i], identity, k) && SameCwd(entries[i], cwd) {
        var i :| 0 <= i < |entries| && Counts(entries[i], identity, k) && SameCwd(entries[i], cwd);
        if i < |init| {
          assert init[i] == entries[i];
        }
      }
    }
  }

  /** The recency age of a key is the smallest age among its entries. */
  lemma {:induction false} StatsMinAge(entries: seq<HistoryEntry>, identity: string, now: int,
                                       cwd: Option<string>, k: Key)
    requires k in StatsOf(entries, identity, now, cwd)
    ensures var s := StatsOf(entries, identity, now, cwd)[k];
      && (forall i :: 0 <= i < |entries| && Counts(entries[i], identity, k) ==> s.minAge <= Age(now, entries[i]))
      && (exists i :: 0 <= i < |entries| && Counts(entries[i], identity, k) && s.minAge == Age(now, entries[i]))
    decreases |entries|
  {
    var init := entries[..|entries| - 1];
    var last := entries[|entries| - 1];
    var s := StatsOf(entries, identity, now, cwd)[k];
    assert forall i :: 0 <= i < |init| ==> init[i] == entries[i];
    if k in StatsOf(init, identity, now, cwd) {
      StatsMinAge(init, identity, now, cwd, k);
      if Counts(last, identity, k) && Age(now, last) < StatsOf(init, identity, now, cwd)[k].minAge {
        assert s.minAge == Age(now, entries[|entries| - 1]);
      } else {
        var i :| 0 <= i < |init| && Counts(init[i], identity, k)
                 && StatsOf(init, identity, now, cwd)[k].minAge == Age(now, init[i]);
        assert s.minAge == Age(now, entries[i]);
      }
    } else {
      StatsKeys(init, identity, now, cwd, k);
      assert s.minAge == Age(now, entries[|entries| - 1]);
    }
  }

  /** The entries agree in everything but the account name. */
  predicate SameButAccountName(a: HistoryEntry, b: HistoryEntry)
  {
    a.(accountName := b.accountName) == b
  }

  /** The statistics do not depend on account names. */
  lemma {:induction false} StatsIgnoreAccountName(a: seq<HistoryEntry>, b: seq<HistoryEntry>, identity: string,
                                                  now: int, cwd: Option<string>)
    requires |a| == |b| && forall i :: 0 <= i < |a| ==> SameButAccountName(a[i], b[i])
    ensures StatsOf(a, identity, now, cwd) == StatsOf(b, identity, now, cwd)
    decreases |a|
  {
    if a != [] {
      StatsIgnoreAccountName(a[..|a| - 1], b[..|b| - 1], identity, now, cwd);
      assert SameButAccountName(a[|a| - 1], b[|b| - 1]);
    }
  }

  /** The test "belongs to `identity`", as a predicate value. */
  function OfIdentity(identity: string): HistoryEntry -> bool
  {
    (e: HistoryEntry) => e.identity == identity
  }

  /** The statistics after one more entry. */
  lemma {:induction false} StatsSnoc(entries: seq<HistoryEntry>, e: HistoryEntry, identity: string, now: int,
                                     cwd: Option<string>)
    ensures StatsOf(entries + [e], identity, now, cwd) == Step(StatsOf(entries, identity, now, cwd), e, identity, now, cwd)
  {
    assert (entries + [e])[..|entries|] == entries;
  }

  /** Entries of other identities change nothing: only `entry.identity == identity` is read. */
  lemma {:induction false} StatsOnlyOwnIdentity(entries: seq<HistoryEntry>, identity: string, now: int,
                                                cwd: Option<string>)
    ensures StatsOf(entries, identity, now, cwd) == StatsOf(Filter(entries, OfIdentity(identity)), identity, now, cwd)
    decreases |entries|
  {
    if entries != [] {
      var init := entries[..|entries| - 1];
      var last := entries[|entries| - 1];
      var p := OfIdentity(identity);
      StatsOnlyOwnIdentity(init, identity, now, cwd);
      assert entries == init + [last];
      FilterSnoc(init, last, p);
      var kept := Filter(init, p);
      if last.identity == identity {
        StatsSnoc(kept, last, identity, now, cwd);
      } else {
        assert kept + [] == kept;
      }
    }
  }

  /** The window is inclusive: an entry exactly 30 days old counts, one a second older does not. */
  lemma WindowBoundary(e: HistoryEntry, cwd: Option<string>)
    requires I64Min <= e.selectedAt && e.selectedAt + FrequencyWindowSecs + 1 <= I64Max
    ensures StatsOf([e], e.identity, e.selectedAt + FrequencyWindowSecs, cwd)[KeyOf(e)].frequency30d == 1
    ensures StatsOf([e], e.identity, e.selectedAt + FrequencyWindowSecs + 1, cwd)[KeyOf(e)].frequency30d == 0
  {
    assert [e][..0] == [];
  }

  /** An entry dated after `now` has a negative age and counts in the window. */
  lemma FutureEntryCounts(e: HistoryEntry, now: int, cwd: Option<string>)
    requires I64Min <= now - e.selectedAt < 0
    ensures StatsOf([e], e.identity, now, cwd)[KeyOf(e)].frequency30d == 1
    ensures StatsOf([e], e.identity, now, cwd)[KeyOf(e)].minAge == now - e.selectedAt < 0
  {
    assert [e][..0] == [];
  }

  // ---------------------------------------------------------------------------
  // score_for_choice and sort_choices_with_history

  const RecencyWeight: real := 0.60
  const FrequencyWeight: real := 0.30
  const ContextWeight: real := 0.10

  /**
   * The floating-point parts of the score: `recency(age)` stands for
   * `exp(-(age / 86 400) / 14)` and `frequency(n)` for `ln(n + 1) / ln(31)`.
   */
  datatype Scoring = Scoring(recency: int -> real, frequency: nat -> real)

  /** The weighted score of one key's statistics. */
  function Weigh(s: Stats, sc: Scoring): real
  {
    sc.recency(s.minAge) * RecencyWeight + sc.frequency(s.frequency30d) * FrequencyWeight
    + (if s.cwdMatches then 1.0 else 0.0) * ContextWeight
  }

  /**
   * `score_for_choice`: the weighted score of the choice's statistics,
   * looked up by account id and role name; exactly 0.0 when there are none.
   */
  function ScoreForChoice(stats: map<Key, Stats>, choice: RoleChoice, sc: Scoring): (score: real)
    ensures Key(choice.accountId, choice.roleName) !in stats ==> score == 0.0
  {
    var k := Key(choice.accountId, choice.roleName);
    if k in stats then Weigh(stats[k], sc) else 0.0
  }

  /**
   * What the real functions satisfy: `exp(-d / 14)` is positive, and at most
   * 1 for an age that is not negative (a future entry has a negative age and
   * a recency above 1); `ln(n + 1) / ln(31)` is 0 at n = 0, never negative, and
   * at most 1 for n <= 30.
   */
  ghost predicate RealisticScoring(sc: Scoring)
  {
    && (forall a :: 0.0 < sc.recency(a))
    && (forall a :: a >= 0 ==> sc.recency(a) <= 1.0)
    && (forall n :: 0.0 <= sc.frequency(n))
    && (forall n :: n <= 30 ==> sc.frequency(n) <= 1.0)
  }

  /**
   * Every score is non-negative; the score of a key is at most 1 while none of
   * its entries lies in the future and it was picked at most 30 times within
   * the window (past that, or for a future entry, it can exceed 1).
   */
  lemma ScoreBounds(stats: map<Key, Stats>, choice: RoleChoice, sc: Scoring)
    requires RealisticScoring(sc)
    ensures 0.0 <= ScoreForChoice(stats, choice, sc)
    ensures var k := Key(choice.accountId, choice.roleName);
      k in stats && stats[k].minAge >= 0 && stats[k].frequency30d <= 30 ==> ScoreForChoice(stats, choice, sc) <= 1.0
  {
    var k := Key(choice.accountId, choice.roleName);
    if k in stats {
      var s := stats[k];
      assert 0.0 < sc.recency(s.minAge);
      assert 0.0 <= sc.frequency(s.frequency30d);
      if s.minAge >= 0 && s.frequency30d <= 30 {
        assert sc.recency(s.minAge) <= 1.0;
        assert sc.frequency(s.frequency30d) <= 1.0;
      }
    }
  }

  /** With an increasing frequency ratio, more picks within the window never lower the score. */
  lemma ScoreMonotoneInFrequency(s: Stats, n: nat, sc: Scoring)
    requires forall a: nat, b: nat :: a <= b ==> sc.frequency(a) <= sc.frequency(b)
    requires s.frequency30d <= n
    ensures Weigh(s, sc) <= Weigh(s.(frequency30d := n), sc)
  {
    assert sc.frequency(s.frequency30d) <= sc.frequency(n);
  }

  /** With a decreasing recency, a more recent pick never lowers the score. */
  lemma ScoreMonotoneInRecency(s: Stats, age: int, sc: Scoring)
    requires forall a, b :: a <= b ==> sc.recency(b) <= sc.recency(a)
    requires age <= s.minAge
    ensures Weigh(s, sc) <= Weigh(s.(minAge := age), sc)
  {
    assert sc.recency(s.minAge) <= sc.recency(age);
  }

  /** A matching working directory adds exactly the context weight, 0.10. */
  lemma ContextBoost(s: Stats, sc: Scoring)
    ensures Weigh(s.(cwdMatches := true), sc) == Weigh(s.(cwdMatches := false), sc) + ContextWeight
  {
  }

  /** Two choices that differ only in the account name score alike. */
  lemma ScoreIgnoresAccountName(stats: map<Key, Stats>, a: RoleChoice, name: string, sc: Scoring)
    ensures ScoreForChoice(stats, a, sc) == ScoreForChoice(stats, a.(accountName := name), sc)
  {
  }

  /** The score of a choice, as a sort key. */
  function ScoreKey(stats: map<Key, Stats>, sc: Scoring): RoleChoice -> real
  {
    (c: RoleChoice) => ScoreForChoice(stats, c, sc)
  }

  /**
   * What `sort_choices_with_history` leaves in the slice: the choices as they
   * were when the identity has no entries, otherwise their stable sort by
   * descending score.
   */
  function RankChoices(choices: seq<RoleChoice>, identity: string, entries: seq<HistoryEntry>, now: int,
                       cwd: Option<string>, sc: Scoring): seq<RoleChoice>
  {
    var stats := StatsOf(entries, identity, now, cwd);
    if stats == map[] then choices else SortDesc(choices, ScoreKey(stats, sc))
  }

  /** `sort_choices_with_history`: builds the statistics and sorts the slice in place. */
  method SortChoicesWithHistory(choices: array<RoleChoice>, identity: string, entries: seq<HistoryEntry>,
                                now: int, cwd: Option<string>, sc: Scoring)
    modifies choices
    ensures choices[..] == RankChoices(old(choices[..]), identity, entries, now, cwd, sc)
  {
    var stats := BuildStats(entries, identity, now, cwd);
    if stats == map[] {
      return;
    }
    SortInPlace(choices, ScoreKey(stats, sc));
  }

  /**
   * The ranking is a permutation of the choices, in descending score order,
   * and keeps the input order among choices of equal score.
   */
  lemma {:induction false} RankChoicesSorted(choices: seq<RoleChoice>, identity: string,
                                             entries: seq<HistoryEntry>, now: int, cwd: Option<string>,
                                             sc: Scoring, score: real)
    ensures var key := ScoreKey(StatsOf(entries, identity, now, cwd), sc);
      var ranked := RankChoices(choices, identity, entries, now, cwd, sc);
      && multiset(ranked) == multiset(choices)
      && SortedDesc(ranked, key)
      && Filter(ranked, HasKey(key, score)) == Filter(choices, HasKey(key, score))
  {
    var stats := StatsOf(entries, identity, now, cwd);
    var key := ScoreKey(stats, sc);
    if stats == map[] {
      SortDescConstantKey(choices, key, 0.0);
    }
    SortDescPermutation(choices, key);
    SortDescSorted(choices, key);
    SortDescStable(choices, key, score);
  }

  /** Without an entry of the identity the choices keep their order. */
  lemma {:induction false} RankChoicesNoHistory(choices: seq<RoleChoice>, identity: string,
                                                entries: seq<HistoryEntry>, now: int, cwd: Option<string>,
                                                sc: Scoring)
    requires forall i :: 0 <= i < |entries| ==> entries[i].identity != identity
    ensures RankChoices(choices, identity, entries, now, cwd, sc) == choices
  {
    NoEntriesNoStats(entries, identity, now, cwd);
  }

  // ---------------------------------------------------------------------------
  // The log file: history_path, load_entries, load_entries_from_path

  /** A line as `BufRead::lines` yields it: its text, or the error reading it. */
  datatype LogLine = Line(text: string) | Unreadable(message: string)

  /**
   * The log file at the history path, as the lines it holds; every line is
   * taken to end in '\n', as `writeln!` leaves it.
   */
  datatype LogFile = Absent | Present(lines: seq<LogLine>)

  /** The outcome of `serde_json::to_string` on an entry: its text, or the serializer's message. */
  datatype Serialized = Serialized(text: string) | SerializeError(message: string)

  /**
   * `history_path`: `$XDG_STATE_HOME/roleman/history.jsonl`, else
   * `$HOME/.local/state/roleman/history.jsonl`, else `MissingHome`.
   */
  function HistoryPath(xdgStateHome: Option<string>, home: Option<string>): (r: Result<string>)
    ensures r.Err? <==> xdgStateHome.None? && home.None?
    ensures r.Err? ==> r.error == MissingHome
    ensures r.Ok? ==> EndsWith(r.value, "history.jsonl")
    ensures xdgStateHome.Some? && xdgStateHome.value != [] ==> StartsWith(r.value, xdgStateHome.value)
    ensures xdgStateHome.None? && home.Some? && home.value != [] ==> StartsWith(r.value, home.value)
  {
    match xdgStateHome
    case Some(dir) => Ok(UnderBase(dir))
    case None =>
      match home
      case None => Err(MissingHome)
      case Some(h) =>
        var state := JoinPath(JoinPath(h, ".local"), "state");
        assert ".local"[0] != '/' && "state"[0] != '/';
        if h == [] then Ok(UnderBase(state))
        else
          JoinPathUnder(h, ".local");
          JoinPathUnder(JoinPath(h, ".local"), "state");
          Ok(UnderBase(state))
  }

  /** `base.join("roleman").join("history.jsonl")`. */
  function UnderBase(base: string): (r: string)
    ensures EndsWith(r, "history.jsonl")
    ensures base != [] ==> StartsWith(r, base)
  {
    var dir := JoinPath(base, "roleman");
    assert "roleman"[0] != '/' && "history.jsonl"[0] != '/';
    if base == [] then JoinPath(dir, "history.jsonl")
    else
      JoinPathUnder(base, "roleman");
      JoinPathUnder(dir, "history.jsonl");
      JoinPath(dir, "history.jsonl")
  }

  /** The test `line.trim().is_empty()`. */
  predicate Blank(text: string)
  {
    Trim(text) == ""
  }

  /** What one line of text contributes: nothing if blank or malformed, else its entry. */
  function Kept(text: string, decode: string -> Option<HistoryEntry>): seq<HistoryEntry>
  {
    if Blank(text) then []
    else match decode(text)
      case Some(e) => [e]
      case None => []
  }

  /** `Kept` as an optional entry per line, for use with `FilterMap`. */
  function Parsed(decode: string -> Option<HistoryEntry>): LogLine -> Option<HistoryEntry>
  {
    (l: LogLine) => if l.Line? && !Blank(l.text) then decode(l.text) else None
  }

  /** Puts `front` before the entries of a successful load. */
  function Prepend(front: seq<HistoryEntry>, r: Result<seq<HistoryEntry>>): Result<seq<HistoryEntry>>
  {
    match r
    case Err(e) => Err(e)
    case Ok(rest) => Ok(front + rest)
  }

  /**
   * What loading a list of lines yields: the first unreadable line is a
   * `Config` error; otherwise the decoded entries of the non-blank lines,
   * in file order, skipping those that do not decode.
   */
  function LoadLines(lines: seq<LogLine>, decode: string -> Option<HistoryEntry>): Result<seq<HistoryEntry>>
    decreases |lines|
  {
    if lines == [] then Ok([])
    else match lines[0]
      case Unreadable(m) => Err(Config(m))
      case Line(text) => Prepend(Kept(text, decode), LoadLines(lines[1..], decode))
  }

  /** One step of the loop: the load from line `i` on, by what line `i` is. */
  lemma {:induction false} LoadLinesFrom(lines: seq<LogLine>, i: nat, decode: string -> Option<HistoryEntry>)
    requires i < |lines|
    ensures lines[i].Unreadable? ==> LoadLines(lines[i..], decode) == Err(Config(lines[i].message))
    ensures lines[i].Line? ==>
      LoadLines(lines[i..], decode) == Prepend(Kept(lines[i].text, decode), LoadLines(lines[i + 1..], decode))
  {
    assert lines[i..][0] == lines[i];
    assert lines[i..][1..] == lines[i + 1..];
  }

  lemma {:induction false} PrependPrepend(a: seq<HistoryEntry>, b: seq<HistoryEntry>, r: Result<seq<HistoryEntry>>)
    ensures Prepend(a, Prepend(b, r)) == Prepend(a + b, r)
  {
    if r.Ok? {
      assert a + (b + r.value) == (a + b) + r.value;
    }
  }

  /** The invariant of the loop below, carried over one readable line. */
  lemma {:induction false} LoadStep(lines: seq<LogLine>, i: nat, entries: seq<HistoryEntry>,
                                    decode: string -> Option<HistoryEntry>)
    requires i < |lines| && lines[i].Line?
    requires LoadLines(lines, decode) == Prepend(entries, LoadLines(lines[i..], decode))
    ensures LoadLines(lines, decode) == Prepend(entries + Kept(lines[i].text, decode), LoadLines(lines[i + 1..], decode))
  {
    LoadLinesFrom(lines, i, decode);
    PrependPrepend(entries, Kept(lines[i].text, decode), LoadLines(lines[i + 1..], decode));
  }

  /** What one line contributes, by whether it is blank and whether it decodes. */
  lemma {:induction false} KeptCases(text: string, decode: string -> Option<HistoryEntry>)
    ensures Blank(text) ==> Kept(text, decode) == []
    ensures !Blank(text) && decode(text).Some? ==> Kept(text, decode) == [decode(text).value]
    ensures !Blank(text) && decode(text).None? ==> Kept(text, decode) == []
  {
  }

  /** The loop of `load_entries_from_path`: push each decoded entry, stop at a read error. */
  method LoadEntriesFromLines(lines: seq<LogLine>, decode: string -> Option<HistoryEntry>)
    returns (r: Result<seq<HistoryEntry>>)
    ensures r == LoadLines(lines, decode)
  {
    var entries: seq<HistoryEntry> := [];
    var i := 0;
    assert lines[0..] == lines;
    assert Prepend([], LoadLines(lines, decode)) == LoadLines(lines, decode) by {
      if LoadLines(lines, decode).Ok? {
        assert [] + LoadLines(lines, decode).value == LoadLines(lines, decode).value;
      }
    }
    while i < |lines|
      invariant 0 <= i <= |lines|
      invariant LoadLines(lines, decode) == Prepend(entries, LoadLines(lines[i..], decode))
    {
      if lines[i].Unreadable? {
        LoadLinesFrom(lines, i, decode);
        return Err(Config(lines[i].message));
      }
      var text := lines[i].text;
      LoadStep(lines, i, entries, decode);
      KeptCases(text, decode);
      i := i + 1;
      if Trim(text) == "" {
        assert entries + Kept(text, decode) == entries;
        continue;
      }
      var decoded := decode(text);
      if decoded.Some? {
        entries := entries + [decoded.value];
      } else {
        assert entries + Kept(text, decode) == entries;
      }
    }
    assert lines[i..] == [] && entries + [] == entries;
    r := Ok(entries);
  }

  /** A load fails exactly when some line cannot be read, and then with the first such line's error. */
  lemma {:induction false} LoadLinesError(lines: seq<LogLine>, decode: string -> Option<HistoryEntry>)
    ensures LoadLines(lines, decode).Err? <==> exists i :: 0 <= i < |lines| && lines[i].Unreadable?
    ensures LoadLines(lines, decode).Err? ==>
      exists i :: 0 <= i < |lines| && lines[i].Unreadable?
        && (forall j :: 0 <= j < i ==> lines[j].Line?)
        && LoadLines(lines, decode).error == Config(lines[i].message)
  {
    LoadLinesFailsIff(lines, decode);
    LoadLinesFirstError(lines, decode);
  }

  /** What the first line does to a load: its own error, or the rest's outcome. */
  lemma {:induction false} LoadLinesStep(lines: seq<LogLine>, decode: string -> Option<HistoryEntry>)
    requires lines != []
    ensures lines[0].Unreadable? ==> LoadLines(lines, decode) == Err(Config(lines[0].message))
    ensures lines[0].Line? ==> (LoadLines(lines, decode).Err? <==> LoadLines(lines[1..], decode).Err?)
    ensures lines[0].Line? && LoadLines(lines, decode).Err? ==>
      LoadLines(lines, decode).error == LoadLines(lines[1..], decode).error
  {
  }

  lemma {:induction false} LoadLinesFailsIff(lines: seq<LogLine>, decode: string -> Option<HistoryEntry>)
    ensures LoadLines(lines, decode).Err? <==> exists i :: 0 <= i < |lines| && lines[i].Unreadable?
    decreases |lines|
  {
    if lines != [] {
      var rest := lines[1..];
      LoadLinesFailsIff(rest, decode);
      LoadLinesStep(lines, decode);
      if exists i :: 0 <= i < |lines| && lines[i].Unreadable? {
        var i :| 0 <= i < |lines| && lines[i].Unreadable?;
        if i > 0 {
          assert rest[i - 1] == lines[i];
        }
      }
      if exists i :: 0 <= i < |rest| && rest[i].Unreadable? {
        var i :| 0 <= i < |rest| && rest[i].Unreadable?;
        assert lines[i + 1] == rest[i];
      }
    }
  }

  lemma {:induction false} LoadLinesFirstError(lines: seq<LogLine>, decode: string -> Option<HistoryEntry>)
    ensures LoadLines(lines, decode).Err? ==>
      exists i :: 0 <= i < |lines| && lines[i].Unreadable?
        && (forall j :: 0 <= j < i ==> lines[j].Line?)
        && LoadLines(lines, decode).error == Config(lines[i].message)
    decreases |lines|
  {
    if lines != [] {
      var rest := lines[1..];
      LoadLinesStep(lines, decode);
      if lines[0].Line? && LoadLines(lines, decode).Err? {
        LoadLinesFirstError(rest, decode);
        var i :| 0 <= i < |rest| && rest[i].Unreadable?
                 && (forall j :: 0 <= j < i ==> rest[j].Line?)
                 && LoadLines(rest, decode).error == Config(rest[i].message);
        assert lines[i + 1] == rest[i];
        forall j | 0 < j < i + 1 ensures lines[j].Line? {
          assert lines[j] == rest[j - 1];
        }
      }
    }
  }

  /** With every line readable, the load keeps the well-formed non-blank lines' entries, in order. */
  lemma {:induction false} LoadLinesReadable(lines: seq<LogLine>, decode: string -> Option<HistoryEntry>)
    requires forall i :: 0 <= i < |lines| ==> lines[i].Line?
    ensures LoadLines(lines, decode) == Ok(FilterMap(lines, Parsed(decode)))
    decreases |lines|
  {
    if lines != [] {
      LoadLinesReadable(lines[1..], decode);
      FilterMapCons(lines, Parsed(decode));
    }
  }

  /** One more line at the end adds its entry, if it has one, at the end. */
  lemma {:induction false} LoadLinesSnoc(lines: seq<LogLine>, text: string, decode: string -> Option<HistoryEntry>)
    requires LoadLines(lines, decode).Ok?
    ensures LoadLines(lines + [Line(text)], decode) == Ok(LoadLines(lines, decode).value + Kept(text, decode))
    decreases |lines|
  {
    var longer := lines + [Line(text)];
    if lines == [] {
      assert longer[0] == Line(text) && longer[1..] == [];
      assert LoadLines(longer, decode) == Prepend(Kept(text, decode), Ok([]));
      assert Kept(text, decode) + [] == [] + Kept(text, decode);
    } else {
      var rest := lines[1..];
      assert lines[0].Line?;
      var front := Kept(lines[0].text, decode);
      assert LoadLines(lines, decode) == Prepend(front, LoadLines(rest, decode));
      assert longer[0] == lines[0] && longer[1..] == rest + [Line(text)];
      assert LoadLines(longer, decode) == Prepend(front, LoadLines(rest + [Line(text)], decode));
      LoadLinesSnoc(rest, text, decode);
      PrependPrepend(front, LoadLines(rest, decode).value, Ok(Kept(text, decode)));
    }
  }

  /** A valid line followed by one that does not decode loads as the valid line's entry alone. */
  lemma {:induction false} SkipsInvalidLines(valid: string, bad: string, e: HistoryEntry,
                                             decode: string -> Option<HistoryEntry>)
    requires !Blank(valid) && decode(valid) == Some(e) && decode(bad) == None
    ensures LoadLines([Line(valid), Line(bad)], decode) == Ok([e])
  {
    var lines := [Line(valid), Line(bad)];
    var tail := lines[1..];
    assert lines[0] == Line(valid) && tail == [Line(bad)] && tail[1..] == [];
    assert Kept(bad, decode) == [] && Kept(valid, decode) == [e];
    assert LoadLines(tail[1..], decode) == Ok([]);
    var none: seq<HistoryEntry> := [];
    assert LoadLines(tail, decode) == Prepend(none, Ok(none));
    assert none + none == none;
    assert LoadLines(lines, decode) == Prepend([e], Ok([]));
    assert [e] + [] == [e];
  }

  /**
   * `load_entries`: no history path is `MissingHome`; an absent file is no
   * entries; a file that cannot be opened is a `Config` error; otherwise
   * the lines are loaded.
   */
  function LoadEntries(file: LogFile, xdgStateHome: Option<string>, home: Option<string>,
                       openError: Option<string>, decode: string -> Option<HistoryEntry>)
    : Result<seq<HistoryEntry>>
  {
    if HistoryPath(xdgStateHome, home).Err? then Err(MissingHome)
    else if file.Absent? then Ok([])
    else if openError.Some? then Err(Config(openError.value))
    else LoadLines(file.lines, decode)
  }

  /** The lines of the file; none when it is absent. */
  function LinesOf(file: LogFile): seq<LogLine>
  {
    if file.Present? then file.lines else []
  }

  // ---------------------------------------------------------------------------
  // recent_entries

  /** Sorting key of `recent_entries`: the selection time. */
  function SelectedAtKey(): HistoryEntry -> real
  {
    (e: HistoryEntry) => e.selectedAt as real
  }

  /** What `recent_entries` returns: the entries newest first (ties in file order), cut to `limit`. */
  function Newest(entries: seq<HistoryEntry>, limit: nat): seq<HistoryEntry>
  {
    var sorted := SortDesc(entries, SelectedAtKey());
    sorted[..if limit < |sorted| then limit else |sorted|]
  }

  /** The entries copied into an array, sorted there newest first, and the first `limit` of them taken. */
  method NewestFirst(entries: seq<HistoryEntry>, limit: nat) returns (newest: seq<HistoryEntry>)
    ensures newest == Newest(entries, limit)
  {
    var a := new HistoryEntry[|entries|](i requires 0 <= i < |entries| => entries[i]);
    assert a[..] == entries;
    SortInPlace(a, SelectedAtKey());
    var n := if limit < a.Length then limit else a.Length;
    newest := a[..n];
  }

  /** A prefix keeps, of the elements passing a test, a prefix. */
  lemma {:induction false} FilterPrefix<T>(s: seq<T>, n: nat, p: T -> bool)
    requires n <= |s|
    ensures Filter(s[..n], p) <= Filter(s, p)
  {
    assert s == s[..n] + s[n..];
    FilterAppend(s[..n], s[n..], p);
  }

  /** `recent_entries(limit)` holds `min(limit, n)` entries, newest first. */
  lemma {:induction false} NewestSorted(entries: seq<HistoryEntry>, limit: nat)
    ensures |Newest(entries, limit)| == (if limit < |entries| then limit else |entries|)
    ensures SortedDesc(Newest(entries, limit), SelectedAtKey())
  {
    SortDescSorted(entries, SelectedAtKey());
  }

  /** Each entry returned is a loaded one, and none is lost when the limit allows all of them. */
  lemma {:induction false} NewestFromEntries(entries: seq<HistoryEntry>, limit: nat)
    ensures multiset(Newest(entries, limit)) <= multiset(entries)
    ensures limit >= |entries| ==> multiset(Newest(entries, limit)) == multiset(entries)
  {
    var sorted := SortDesc(entries, SelectedAtKey());
    var r := Newest(entries, limit);
    SortDescPermutation(entries, SelectedAtKey());
    assert sorted == r + sorted[|r|..];
    assert multiset(sorted) == multiset(r) + multiset(sorted[|r|..]);
  }

  /** Any entry newer than one returned is returned too: what is cut off is the oldest. */
  lemma {:induction false} NewestKeepsNewer(entries: seq<HistoryEntry>, limit: nat)
    ensures forall x, y :: x in Newest(entries, limit) && y in entries && y.selectedAt > x.selectedAt
              ==> y in Newest(entries, limit)
  {
    var key := SelectedAtKey();
    var sorted := SortDesc(entries, key);
    var r := Newest(entries, limit);
    SortDescSorted(entries, key);
    SortDescPermutation(entries, key);
    forall x, y | x in r && y in entries && y.selectedAt > x.selectedAt ensures y in r {
      var i :| 0 <= i < |r| && r[i] == x;
      assert y in multiset(sorted);
      var j :| 0 <= j < |sorted| && sorted[j] == y;
      assert sorted[i] == x;
      if j >= |r| {
        assert false;
      }
      assert r[j] == y;
    }
  }

  /** Entries of equal time come out in file order: `sort_by` is stable. */
  lemma {:induction false} NewestStable(entries: seq<HistoryEntry>, limit: nat, t: real)
    ensures Filter(Newest(entries, limit), HasKey(SelectedAtKey(), t)) <= Filter(entries, HasKey(SelectedAtKey(), t))
  {
    var sorted := SortDesc(entries, SelectedAtKey());
    SortDescStable(entries, SelectedAtKey(), t);
    FilterPrefix(sorted, |Newest(entries, limit)|, HasKey(SelectedAtKey(), t));
  }

  // ---------------------------------------------------------------------------
  // format_entry and format_timestamp

  /**
   * `format_timestamp`: the RFC 3339 rendering (supplied, and `None` when
   * the time crate cannot format the instant), or else the decimal integer.
   */
  function FormatTimestamp(t: int, rfc3339: int -> Option<string>): (r: string)
    ensures !InTimeRange(t) || rfc3339(t).None? ==> r == IntToString(t)
    ensures InTimeRange(t) && rfc3339(t).Some? ==> r == rfc3339(t).value
  {
    if InTimeRange(t) && rfc3339(t).Some? then rfc3339(t).value else IntToString(t)
  }

  /** Beyond the year 9999 the timestamp is printed as its number, which reads back. */
  lemma FormatTimestampFallback(t: int, rfc3339: int -> Option<string>)
    requires t > MaxUnixTimestamp
    ensures FormatTimestamp(t, rfc3339) == NatToString(t)
    ensures DigitsValue(FormatTimestamp(t, rfc3339)) == t
  {
    NatToStringRoundTrip(t);
  }

  /** The last column: the working directory, or "-" when none was recorded. */
  function CwdColumn(cwd: Option<string>): string
  {
    cwd.GetOr("-")
  }

  /** The five display columns of an entry; the account name is not shown. */
  function Columns(e: HistoryEntry, rfc3339: int -> Option<string>): seq<string>
  {
    [FormatTimestamp(e.selectedAt, rfc3339), e.identity, e.accountId, e.roleName, CwdColumn(e.cwd)]
  }

  /** `format_entry`: the columns separated by tabs. */
  function FormatEntry(e: HistoryEntry, rfc3339: int -> Option<string>): string
  {
    Join(Columns(e, rfc3339), "\t")
  }

  /** Splitting a display line on tabs recovers its columns when no column holds a tab. */
  lemma FormatEntryColumns(e: HistoryEntry, rfc3339: int -> Option<string>)
    requires forall k :: 0 <= k < 5 ==> '\t' !in Columns(e, rfc3339)[k]
    ensures Split(FormatEntry(e, rfc3339), '\t') == Columns(e, rfc3339)
  {
    SplitJoin(Columns(e, rfc3339), '\t');
  }

  // ---------------------------------------------------------------------------
  // The log as state: record_selection, clear_entries, and the readers

  class HistoryLog {
    var file: LogFile

    constructor(initial: LogFile)
      ensures file == initial
    {
      file := initial;
    }

    /** `load_entries` on the current file. */
    method Load(xdgStateHome: Option<string>, home: Option<string>, openError: Option<string>,
                decode: string -> Option<HistoryEntry>)
      returns (r: Result<seq<HistoryEntry>>)
      ensures r == LoadEntries(file, xdgStateHome, home, openError, decode)
    {
      var path := HistoryPath(xdgStateHome, home);
      if path.Err? {
        return Err(path.error);
      }
      if file.Absent? {
        return Ok([]);
      }
      if openError.Some? {
        return Err(Config(openError.value));
      }
      r := LoadEntriesFromLines(file.lines, decode);
    }

    /**
     * `record_selection`: appends the entry for the choice, stamped `now`
     * and with the current directory, as one serialized line. Each failing
     * step (creating the directory, opening, serializing, writing) is a
     * `Config` error with its message; an open that succeeded has created
     * the file, so a later failure leaves an absent file present and empty.
     */
    method RecordSelection(xdgStateHome: Option<string>, home: Option<string>, identity: string,
                           choice: RoleChoice, now: int, cwd: Option<string>, encode: HistoryEntry -> Serialized,
                           mkdirError: Option<string>, openError: Option<string>, writeError: Option<string>)
      returns (r: Result<()>)
      modifies this
      ensures HistoryPath(xdgStateHome, home).Err? ==> r == Err(MissingHome) && file == old(file)
      ensures HistoryPath(xdgStateHome, home).Ok? && mkdirError.Some? ==>
        r == Err(Config(mkdirError.value)) && file == old(file)
      ensures HistoryPath(xdgStateHome, home).Ok? && mkdirError.None? && openError.Some? ==>
        r == Err(Config(openError.value)) && file == old(file)
      ensures HistoryPath(xdgStateHome, home).Ok? && mkdirError.None? && openError.None? ==>
        var entry := HistoryEntry(now, identity, choice.accountId, choice.accountName, choice.roleName, cwd);
        && (encode(entry).SerializeError? ==>
              r == Err(Config(encode(entry).message)) && file == Present(LinesOf(old(file))))
        && (encode(entry).Serialized? && writeError.Some? ==>
              r == Err(Config(writeError.value)) && file == Present(LinesOf(old(file))))
        && (encode(entry).Serialized? && writeError.None? ==>
              r == Ok(()) && file == Present(LinesOf(old(file)) + [Line(encode(entry).text)]))
    {
      var entry := HistoryEntry(now, identity, choice.accountId, choice.accountName, choice.roleName, cwd);
      var path := HistoryPath(xdgStateHome, home);
      if path.Err? {
        return Err(path.error);
      }
      if mkdirError.Some? {
        return Err(Config(mkdirError.value));
      }
      if openError.Some? {
        return Err(Config(openError.value));
      }
      if file.Absent? {
        file := Present([]);
      }
      var serialized := encode(entry);
      if serialized.SerializeError? {
        return Err(Config(serialized.message));
      }
      if writeError.Some? {
        return Err(Config(writeError.value));
      }
      file := Present(file.lines + [Line(serialized.text)]);
      r := Ok(());
    }

    /** `clear_entries`: removes the file if it exists; a failed removal is a `Config` error. */
    method ClearEntries(xdgStateHome: Option<string>, home: Option<string>, removeError: Option<string>)
      returns (r: Result<()>)
      modifies this
      ensures HistoryPath(xdgStateHome, home).Err? ==> r == Err(MissingHome) && file == old(file)
      ensures HistoryPath(xdgStateHome, home).Ok? && old(file).Absent? ==> r == Ok(()) && file == Absent
      ensures HistoryPath(xdgStateHome, home).Ok? && old(file).Present? && removeError.Some? ==>
        r == Err(Config(removeError.value)) && file == old(file)
      ensures HistoryPath(xdgStateHome, home).Ok? && removeError.None? ==> r == Ok(()) && file == Absent
    {
      var path := HistoryPath(xdgStateHome, home);
      if path.Err? {
        return Err(path.error);
      }
      if file.Present? {
        if removeError.Some? {
          return Err(Config(removeError.value));
        }
        file := Absent;
      }
      r := Ok(());
    }

    /** `recent_entries`: the loaded entries sorted newest first in place, then truncated. */
    method RecentEntries(xdgStateHome: Option<string>, home: Option<string>, openError: Option<string>,
                         decode: string -> Option<HistoryEntry>, limit: nat)
      returns (r: Result<seq<HistoryEntry>>)
      ensures var loaded := LoadEntries(file, xdgStateHome, home, openError, decode);
        && (loaded.Err? ==> r == Err(loaded.error))
        && (loaded.Ok? ==> r == Ok(Newest(loaded.value, limit)))
    {
      var loaded := Load(xdgStateHome, home, openError, decode);
      if loaded.Err? {
        return Err(loaded.error);
      }
      var newest := NewestFirst(loaded.value, limit);
      r := Ok(newest);
    }

    /**
     * `apply_history_sort`: a non-blank initial query leaves the choices
     * alone; otherwise the log is loaded (its error returned) and, when it
     * holds any entry, the choices are ranked by it.
     */
    method ApplyHistorySort(choices: array<RoleChoice>, identity: string, initialQuery: Option<string>,
                            xdgStateHome: Option<string>, home: Option<string>, openError: Option<string>,
                            decode: string -> Option<HistoryEntry>, now: int, cwd: Option<string>, sc: Scoring)
      returns (r: Result<()>)
      modifies choices
      ensures initialQuery.Some? && Trim(initialQuery.value) != "" ==>
        r == Ok(()) && choices[..] == old(choices[..])
      ensures !(initialQuery.Some? && Trim(initialQuery.value) != "") ==>
        var loaded := LoadEntries(file, xdgStateHome, home, openError, decode);
        && (loaded.Err? ==> r == Err(loaded.error) && choices[..] == old(choices[..]))
        && (loaded.Ok? && loaded.value == [] ==> r == Ok(()) && choices[..] == old(choices[..]))
        && (loaded.Ok? && loaded.value != [] ==>
              r == Ok(()) && choices[..] == RankChoices(old(choices[..]), identity, loaded.value, now, cwd, sc))
    {
      if initialQuery.Some? && Trim(initialQuery.value) != "" {
        return Ok(());
      }
      var loaded := Load(xdgStateHome, home, openError, decode);
      if loaded.Err? {
        return Err(loaded.error);
      }
      if loaded.value == [] {
        return Ok(());
      }
      SortChoicesWithHistory(choices, identity, loaded.value, now, cwd, sc);
      r := Ok(());
    }
  }

  /**
   * A recorded selection is read back: appending the encoded entry to a log
   * that loads adds that entry at the end, when the encoding decodes to the
   * entry and is not blank.
   */
  lemma {:induction false} RecordThenLoad(file: LogFile, xdgStateHome: Option<string>, home: Option<string>,
                                          e: HistoryEntry, encode: HistoryEntry -> Serialized,
                                          decode: string -> Option<HistoryEntry>)
    requires LoadEntries(file, xdgStateHome, home, None, decode).Ok?
    requires HistoryPath(xdgStateHome, home).Ok?
    requires encode(e).Serialized? && decode(encode(e).text) == Some(e) && !Blank(encode(e).text)
    ensures LoadEntries(Present(LinesOf(file) + [Line(encode(e).text)]), xdgStateHome, home, None, decode)
         == Ok(LoadEntries(file, xdgStateHome, home, None, decode).value + [e])
  {
    RecordedTextLoads(file, xdgStateHome, home, e, encode(e).text, decode);
  }

  lemma {:induction false} RecordedTextLoads(file: LogFile, xdgStateHome: Option<string>, home: Option<string>,
                                             e: HistoryEntry, text: string, decode: string -> Option<HistoryEntry>)
    requires LoadEntries(file, xdgStateHome, home, None, decode).Ok?
    requires HistoryPath(xdgStateHome, home).Ok?
    requires decode(text) == Some(e) && !Blank(text)
    ensures LoadEntries(Present(LinesOf(file) + [Line(text)]), xdgStateHome, home, None, decode)
         == Ok(LoadEntries(file, xdgStateHome, home, None, decode).value + [e])
  {
    var before := LoadEntries(file, xdgStateHome, home, None, decode);
    if file.Absent? {
      assert LinesOf(file) == [];
      assert LoadLines([], decode) == Ok([]);
      assert before == Ok([]);
    } else {
      assert before == LoadLines(file.lines, decode);
    }
    assert LoadLines(LinesOf(file), decode) == before;
    LoadLinesSnoc(LinesOf(file), text, decode);
    assert Kept(text, decode) == [e];
  }

  /** The first selection into an absent log is the one recent entry. */
  lemma {:induction false} FirstRecordIsRecent(e: HistoryEntry, encode: HistoryEntry -> Serialized,
                                               decode: string -> Option<HistoryEntry>)
    requires encode(e).Serialized? && decode(encode(e).text) == Some(e) && !Blank(encode(e).text)
    ensures LoadLines([Line(encode(e).text)], decode) == Ok([e])
    ensures Newest([e], 10) == [e]
  {
    FirstRecordLoads(e, encode, decode);
    NewestOfOne(e);
  }

  lemma {:induction false} FirstRecordLoads(e: HistoryEntry, encode: HistoryEntry -> Serialized,
                                            decode: string -> Option<HistoryEntry>)
    requires encode(e).Serialized? && decode(encode(e).text) == Some(e) && !Blank(encode(e).text)
    ensures LoadLines([Line(encode(e).text)], decode) == Ok([e])
  {
    var line := Line(encode(e).text);
    assert [line][0] == line && [line][1..] == [];
    assert Kept(encode(e).text, decode) == [e];
    assert LoadLines([line][1..], decode) == Ok([]);
    assert [e] + [] == [e];
  }

  lemma {:induction false} NewestOfOne(e: HistoryEntry)
    ensures Newest([e], 10) == [e]
  {
    assert [e][..0] == [];
  }
}
