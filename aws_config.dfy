/**
 * AWS profile names derived from a role choice (src/aws_config.rs): the raw
 * name `roleman-<account>-<role>` is sanitised so that only ASCII
 * alphanumerics, '-' and '_' remain, dashes never repeat, none leads or
 * trails, and the result is never empty.
 */
module AwsConfig {
  import opened Strings
  import opened Model

  predicate IsProfileChar(c: char)
  {
    IsAsciiAlphanumeric(c) || c == '-' || c == '_'
  }

  /** The per-character mapping: allowed characters stay, everything else becomes '-'. */
  function MapChar(c: char): (d: char)
    ensures IsProfileChar(d)
    ensures IsProfileChar(c) ==> d == c
  {
    if IsProfileChar(c) then c else '-'
  }

  function MapChars(s: string): (r: string)
    ensures |r| == |s| && forall i :: 0 <= i < |s| ==> r[i] == MapChar(s[i])
  {
    seq(|s|, i requires 0 <= i < |s| => MapChar(s[i]))
  }

  /** One pass of `replace("--", "-")`: non-overlapping, left to right. */
  function ReplaceDoubleDash(s: string): (r: string)
    ensures |r| <= |s|
    ensures forall i :: 0 <= i < |r| ==> r[i] in s
    decreases |s|
  {
    if |s| >= 2 && s[0] == '-' && s[1] == '-' then "-" + ReplaceDoubleDash(s[2..])
    else if s == [] then []
    else [s[0]] + ReplaceDoubleDash(s[1..])
  }

  predicate NoDoubleDash(s: string)
  {
    forall i :: 0 <= i < |s| - 1 ==> !(s[i] == '-' && s[i + 1] == '-')
  }

  /**
   * The reference meaning of the replace loop: every run of dashes collapsed
   * to one, scanning left to right; `afterDash` says the previous kept
   * character was a dash.
   */
  function CollapseAfter(afterDash: bool, s: string): string
    decreases |s|
  {
    if s == [] then []
    else if s[0] == '-' && afterDash then CollapseAfter(true, s[1..])
    else [s[0]] + CollapseAfter(s[0] == '-', s[1..])
  }

  function CollapseDashes(s: string): string
  {
    CollapseAfter(false, s)
  }

  /** The sanitised name, stated through the reference collapse. */
  function Sanitize(value: string): string
  {
    var trimmed := TrimMatches(CollapseDashes(MapChars(value)), '-');
    if trimmed == [] then "roleman" else trimmed
  }

  /** A name sanitising could produce. */
  predicate IsValidProfileName(s: string)
  {
    s != [] && (forall i :: 0 <= i < |s| ==> IsProfileChar(s[i]))
    && NoDoubleDash(s) && s[0] != '-' && s[|s| - 1] != '-'
  }

  // ---------------------------------------------------------------------------
  // Lemmas about the collapse

  lemma {:induction false} DoubleDashContained(s: string)
    ensures Contains(s, "--") <==> !NoDoubleDash(s)
  {
    if Contains(s, "--") {
      var i :| 0 <= i <= |s| - 2 && OccursAt(s, "--", i);
      assert s[i..i + 2] == "--";
      assert s[i] == '-' && s[i + 1] == '-';
    }
    if !NoDoubleDash(s) {
      var i :| 0 <= i < |s| - 1 && s[i] == '-' && s[i + 1] == '-';
      assert s[i..i + 2] == "--";
      assert OccursAt(s, "--", i);
    }
  }

  lemma {:induction false} ReplaceShrinks(s: string)
    requires !NoDoubleDash(s)
    ensures |ReplaceDoubleDash(s)| < |s|
    decreases |s|
  {
    if |s| >= 2 && s[0] == '-' && s[1] == '-' {
    } else {
      assert !NoDoubleDash(s[1..]) by {
        var i :| 0 <= i < |s| - 1 && s[i] == '-' && s[i + 1] == '-';
        assert i >= 1;
        assert s[1..][i - 1] == '-' && s[1..][i] == '-';
      }
      ReplaceShrinks(s[1..]);
    }
  }

  /** A replace pass does not change what the string collapses to. */
  lemma {:induction false} CollapseReplace(afterDash: bool, s: string)
    ensures CollapseAfter(afterDash, ReplaceDoubleDash(s)) == CollapseAfter(afterDash, s)
    decreases |s|
  {
    if |s| >= 2 && s[0] == '-' && s[1] == '-' {
      var t := s[2..];
      CollapseReplace(true, t);
      assert s[1..] == "-" + t;
      assert ("-" + ReplaceDoubleDash(t))[1..] == ReplaceDoubleDash(t);
      assert ("-" + t)[1..] == t;
    } else if s != [] {
      CollapseReplace(s[0] == '-', s[1..]);
      assert ([s[0]] + ReplaceDoubleDash(s[1..]))[1..] == ReplaceDoubleDash(s[1..]);
    }
  }

  /** A string without a double dash is its own collapse. */
  lemma {:induction false} CollapseNoop(afterDash: bool, s: string)
    requires NoDoubleDash(s)
    requires afterDash ==> s == [] || s[0] != '-'
    ensures CollapseAfter(afterDash, s) == s
    decreases |s|
  {
    if s != [] {
      assert NoDoubleDash(s[1..]) by {
        forall i | 0 <= i < |s[1..]| - 1 ensures !(s[1..][i] == '-' && s[1..][i + 1] == '-') {
          assert s[1..][i] == s[i + 1] && s[1..][i + 1] == s[i + 2];
        }
      }
      assert s[0] == '-' && |s| > 1 ==> s[1] != '-';
      CollapseNoop(s[0] == '-', s[1..]);
    }
  }

  /** Collapsing never leaves a double dash and keeps the character set. */
  lemma {:induction false} CollapseShape(afterDash: bool, s: string)
    ensures NoDoubleDash(CollapseAfter(afterDash, s))
    ensures afterDash ==> CollapseAfter(afterDash, s) == [] || CollapseAfter(afterDash, s)[0] != '-'
    ensures forall i :: 0 <= i < |CollapseAfter(afterDash, s)| ==> CollapseAfter(afterDash, s)[i] in s
    decreases |s|
  {
    if s != [] {
      CollapseShape(true, s[1..]);
      CollapseShape(s[0] == '-', s[1..]);
      var r := CollapseAfter(afterDash, s);
      if !(s[0] == '-' && afterDash) {
        var rest := CollapseAfter(s[0] == '-', s[1..]);
        assert r == [s[0]] + rest;
        forall i | 0 <= i < |r| - 1 ensures !(r[i] == '-' && r[i + 1] == '-') {
          if i > 0 {
            assert r[i] == rest[i - 1] && r[i + 1] == rest[i];
          }
        }
      }
    }
  }

  lemma {:induction false} SliceNoDoubleDash(s: string, a: nat, b: nat)
    requires a <= b <= |s| && NoDoubleDash(s)
    ensures NoDoubleDash(s[a..b])
  {
    forall i | 0 <= i < |s[a..b]| - 1 ensures !(s[a..b][i] == '-' && s[a..b][i + 1] == '-') {
      assert s[a..b][i] == s[a + i] && s[a..b][i + 1] == s[a + i + 1];
    }
  }

  lemma {:induction false} SliceProfileChars(s: string, a: nat, b: nat)
    requires a <= b <= |s| && forall i :: 0 <= i < |s| ==> IsProfileChar(s[i])
    ensures forall i :: 0 <= i < |s[a..b]| ==> IsProfileChar(s[a..b][i])
  {
    forall i | 0 <= i < |s[a..b]| ensures IsProfileChar(s[a..b][i]) {
      assert s[a..b][i] == s[a + i];
    }
  }

  // ---------------------------------------------------------------------------
  // Properties of the sanitised name

  /** Trimming dashes from a collapsed string of profile characters leaves a valid name or nothing. */
  lemma {:induction false} TrimDashesShape(s: string)
    requires NoDoubleDash(s) && forall i :: 0 <= i < |s| ==> IsProfileChar(s[i])
    ensures TrimMatches(s, '-') == [] || IsValidProfileName(TrimMatches(s, '-'))
  {
    var t := TrimStartBy(s, IsChar('-'));
    var trimmed := TrimEndBy(t, IsChar('-'));
    var a := |s| - |t|;
    var b := a + |trimmed|;
    assert trimmed == s[a..b] by {
      assert t == s[a..];
      assert trimmed == t[..|trimmed|];
    }
    SliceNoDoubleDash(s, a, b);
    SliceProfileChars(s, a, b);
    if trimmed != [] {
      assert trimmed[0] == t[0];
      assert !IsChar('-')(trimmed[0]);
      assert !IsChar('-')(trimmed[|trimmed| - 1]);
    }
  }

  lemma {:induction false} DefaultNameValid()
    ensures IsValidProfileName("roleman")
  {
    var r := "roleman";
    forall i | 0 <= i < |r| - 1 ensures !(r[i] == '-' && r[i + 1] == '-') {
    }
  }

  /** Sanitising always yields a well-formed profile name. */
  lemma {:induction false} SanitizeValid(value: string)
    ensures IsValidProfileName(Sanitize(value))
  {
    var mapped := MapChars(value);
    var collapsed := CollapseDashes(mapped);
    CollapseShape(false, mapped);
    forall i | 0 <= i < |collapsed| ensures IsProfileChar(collapsed[i]) {
      assert collapsed[i] in mapped;
    }
    TrimDashesShape(collapsed);
    DefaultNameValid();
  }

  /** A well-formed name passes every step unchanged, so sanitising is idempotent. */
  lemma {:induction false} SanitizeValidNoop(s: string)
    requires IsValidProfileName(s)
    ensures Sanitize(s) == s
  {
    assert MapChars(s) == s;
    CollapseNoop(false, s);
    var t := TrimStartBy(s, IsChar('-'));
    assert t == s;
  }

  lemma {:induction false} SanitizeIdempotent(value: string)
    ensures Sanitize(Sanitize(value)) == Sanitize(value)
  {
    SanitizeValid(value);
    SanitizeValidNoop(Sanitize(value));
  }

  /** `sanitize_profile_name("roleman-1234-Admin Role") == "roleman-1234-Admin-Role"`. */
  lemma {:induction false} SanitizeExample()
    ensures Sanitize("roleman-1234-Admin Role") == "roleman-1234-Admin-Role"
  {
    ExampleMapped();
    ExampleValid();
    SanitizeOfValidMapping("roleman-1234-Admin Role");
  }

  /** When the character mapping alone already gives a valid name, that is the result. */
  lemma {:induction false} SanitizeOfValidMapping(value: string)
    requires IsValidProfileName(MapChars(value))
    ensures Sanitize(value) == MapChars(value)
  {
    var m := MapChars(value);
    CollapseNoop(false, m);
    var t := TrimStartBy(m, IsChar('-'));
    assert t == m;
  }

  lemma {:induction false} ExampleMapped()
    ensures MapChars("roleman-1234-Admin Role") == "roleman-1234-Admin-Role"
  {
    var r := MapChars("roleman-1234-Admin Role");
    var w := "roleman-1234-Admin-Role";
    forall i | 0 <= i < 23 ensures r[i] == w[i] {
    }
  }

  lemma {:induction false} ExampleValid()
    ensures IsValidProfileName("roleman-1234-Admin-Role")
  {
    var w := "roleman-1234-Admin-Role";
    forall i | 0 <= i < |w| - 1 ensures !(w[i] == '-' && w[i + 1] == '-') {
    }
    forall i | 0 <= i < |w| ensures IsProfileChar(w[i]) {
    }
  }

  // ---------------------------------------------------------------------------
  // The imperative sanitiser

  /**
   * `sanitize_profile_name`: maps each character, then replaces "--" by "-"
   * until none is left, trims dashes from both ends and substitutes
   * "roleman" for an empty result.
   */
  method SanitizeProfileName(value: string) returns (r: string)
    ensures r == Sanitize(value)
    ensures IsValidProfileName(r)
  {
    var out := "";
    var i := 0;
    while i < |value|
      invariant 0 <= i <= |value|
      invariant out == MapChars(value[..i])
    {
      out := out + [if IsProfileChar(value[i]) then value[i] else '-'];
      i := i + 1;
    }
    assert value[..i] == value;
    while Contains(out, "--")
      invariant CollapseDashes(out) == CollapseDashes(MapChars(value))
      decreases |out|
    {
      DoubleDashContained(out);
      ReplaceShrinks(out);
      CollapseReplace(false, out);
      out := ReplaceDoubleDash(out);
    }
    DoubleDashContained(out);
    CollapseNoop(false, out);
    var trimmed := TrimMatches(out, '-');
    if trimmed == [] {
      r := "roleman";
    } else {
      r := trimmed;
    }
    SanitizeValid(value);
  }

  /** `profile_name_for`: the sanitised `roleman-<account id>-<role name>`. */
  method ProfileNameFor(choice: RoleChoice) returns (r: string)
    ensures r == Sanitize("roleman-" + choice.accountId + "-" + choice.roleName)
    ensures IsValidProfileName(r)
  {
    r := SanitizeProfileName("roleman-" + choice.accountId + "-" + choice.roleName);
  }
}
