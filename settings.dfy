/** The configuration main.py reads from the environment at import time, the
    boolean flags it derives from it, and the start-up check that every
    required setting is present. */
module Settings {
  import opened PyStrings

  /** The process environment, after `.env` has been loaded into it. */
  type Env = map<string, string>

  /** `os.getenv(key)`: the value, or `None` when the variable is unset. */
  function Getenv(env: Env, key: string): (v: Option<string>)
    ensures v.Some? <==> key in env
    ensures v.Some? ==> v.value == env[key]
  {
    if key in env then Some(env[key]) else None
  }

  // ---------------------------------------------------------------------------
  // Boolean flags
  // ---------------------------------------------------------------------------

  /** "true" in any mix of upper and lower case. */
  predicate SpellsTrue(s: string)
  {
    |s| == 4 && forall i :: 0 <= i < 4 ==> s[i] == "true"[i] || s[i] == "TRUE"[i]
  }

  /** `lower()` gives 't' exactly for 't' and 'T', and likewise for the other
      letters of "true". */
  lemma LowerCharIsLetter(c: char, lower: char, upper: char)
    requires 'a' <= lower <= 'z' && upper as int == lower as int - 32
    ensures LowerChar(c) == lower <==> c == lower || c == upper
  {
  }

  lemma LowerSpellsTrue(s: string)
    ensures Lower(s) == "true" <==> SpellsTrue(s)
  {
    var l := Lower(s);
    if |s| == 4 {
      forall i | 0 <= i < 4
        ensures l[i] == "true"[i] <==> s[i] == "true"[i] || s[i] == "TRUE"[i]
      {
        LowerCharIsLetter(s[i], "true"[i], "TRUE"[i]);
      }
      if SpellsTrue(s) {
        assert l == "true";
      }
    }
  }

  /** `os.getenv(key, default).lower() == "true"`: the value, or the default
      when unset, spells "true" in some mix of cases. */
  predicate ParseFlag(raw: Option<string>, default: string)
    ensures ParseFlag(raw, default) <==> SpellsTrue(raw.GetOr(default))
  {
    LowerSpellsTrue(raw.GetOr(default));
    Lower(raw.GetOr(default)) == "true"
  }

  /** `DHIS2_DRY_RUN`: an unset variable means a dry run; a set one means a dry
      run exactly when it spells "true", so "false", "no", "" and "1" all mean
      a real import. */
  predicate DryRun(raw: Option<string>)
    ensures raw.None? ==> DryRun(raw)
    ensures raw.Some? ==> (DryRun(raw) <==> SpellsTrue(raw.value))
  {
    ParseFlag(raw, "true")
  }

  /** `str(dry_run).lower()`, the `dryRun` query parameter of the post. */
  function DryRunParameter(dryRun: bool): (p: string)
    ensures p == (if dryRun then "true" else "false")
  {
    assert Lower("True") == "true";
    assert Lower("False") == "false";
    Lower(BoolToStr(dryRun))
  }

  /** The parameter DHIS2 receives reads back as the flag it came from. */
  lemma DryRunParameterRoundTrip(dryRun: bool)
    ensures DryRun(Some(DryRunParameter(dryRun))) == dryRun
  {
    if !dryRun {
      assert DryRunParameter(dryRun)[0] == 'f';
    }
  }

  /** `DHIS2_IS_CUMULATIVE` as main.py reads it: the raw string (or the
      default `True`) is used as a condition, so only an empty value switches
      de-accumulation off. */
  predicate IsCumulativeAsWritten(raw: Option<string>)
    ensures !IsCumulativeAsWritten(raw) <==> raw == Some("")
  {
    raw.None? || raw.value != ""
  }

  /** As written, "false" and "False" leave de-accumulation on. */
  lemma IsCumulativeAsWrittenIgnoresFalse()
    ensures IsCumulativeAsWritten(Some("false")) && IsCumulativeAsWritten(Some("False"))
  {
  }

  /** `DHIS2_IS_CUMULATIVE` parsed like `DHIS2_DRY_RUN`: on when unset, and
      when set on exactly when it spells "true". */
  predicate IsCumulative(raw: Option<string>)
    ensures raw.None? ==> IsCumulative(raw)
    ensures raw.Some? ==> (IsCumulative(raw) <==> SpellsTrue(raw.value))
  {
    ParseFlag(raw, "true")
  }

  /** The corrected flag keeps the default, and "false" turns it off. */
  lemma IsCumulativeHonoursFalse()
    ensures IsCumulative(None)
    ensures !IsCumulative(Some("false")) && !IsCumulative(Some("False"))
  {
    assert "false"[0] == 'f' && "False"[0] == 'F';
  }

  // ---------------------------------------------------------------------------
  // The settings the modelled logic consumes
  // ---------------------------------------------------------------------------

  datatype Settings = Settings(
    cdsapiKey: Option<string>,
    baseUrl: Option<string>,
    username: Option<string>,
    password: Option<string>,
    dataElementId: Option<string>,
    isCumulative: bool,
    fromUnits: string,
    toUnits: string,
    startDate: string,
    dryRun: bool)

  /** The module-level settings of main.py, read from the environment. */
  function Load(env: Env): (s: Settings)
    ensures s.cdsapiKey == Getenv(env, "CDSAPI_KEY")
    ensures s.baseUrl == Getenv(env, "DHIS2_BASE_URL")
    ensures s.username == Getenv(env, "DHIS2_USERNAME")
    ensures s.password == Getenv(env, "DHIS2_PASSWORD")
    ensures s.dataElementId == Getenv(env, "DHIS2_DATA_ELEMENT_ID")
    ensures s.isCumulative == IsCumulativeAsWritten(Getenv(env, "DHIS2_IS_CUMULATIVE"))
    ensures s.dryRun == DryRun(Getenv(env, "DHIS2_DRY_RUN"))
    ensures s.startDate == if "DHIS2_START_DATE" in env then env["DHIS2_START_DATE"] else "2025-01-01"
    ensures s.fromUnits == if "DHIS2_FROM_UNITS" in env then env["DHIS2_FROM_UNITS"] else "m"
    ensures s.toUnits == if "DHIS2_TO_UNITS" in env then env["DHIS2_TO_UNITS"] else "mm"
  {
    Settings(
      cdsapiKey := Getenv(env, "CDSAPI_KEY"),
      baseUrl := Getenv(env, "DHIS2_BASE_URL"),
      username := Getenv(env, "DHIS2_USERNAME"),
      password := Getenv(env, "DHIS2_PASSWORD"),
      dataElementId := Getenv(env, "DHIS2_DATA_ELEMENT_ID"),
      isCumulative := IsCumulativeAsWritten(Getenv(env, "DHIS2_IS_CUMULATIVE")),
      fromUnits := Getenv(env, "DHIS2_FROM_UNITS").GetOr("m"),
      toUnits := Getenv(env, "DHIS2_TO_UNITS").GetOr("mm"),
      startDate := Getenv(env, "DHIS2_START_DATE").GetOr("2025-01-01"),
      dryRun := DryRun(Getenv(env, "DHIS2_DRY_RUN")))
  }

  /** The two readings part on "false": the program de-accumulates, the
      corrected flag does not. */
  lemma CumulativeReadingsDiffer(env: Env)
    requires "DHIS2_IS_CUMULATIVE" in env && env["DHIS2_IS_CUMULATIVE"] == "false"
    ensures Load(env).isCumulative && !IsCumulative(Getenv(env, "DHIS2_IS_CUMULATIVE"))
  {
    IsCumulativeHonoursFalse();
  }

  // ---------------------------------------------------------------------------
  // Required settings
  // ---------------------------------------------------------------------------

  const RequiredNames: seq<string> :=
    ["CDSAPI_KEY", "DHIS2_BASE_URL", "DHIS2_USERNAME", "DHIS2_PASSWORD", "DHIS2_DATA_ELEMENT_ID"]

  /** The required settings, by name, in the order main() checks them. */
  function Required(s: Settings): (req: seq<(string, Option<string>)>)
    ensures |req| == 5
    ensures Names(req) == RequiredNames
  {
    [("CDSAPI_KEY", s.cdsapiKey),
     ("DHIS2_BASE_URL", s.baseUrl),
     ("DHIS2_USERNAME", s.username),
     ("DHIS2_PASSWORD", s.password),
     ("DHIS2_DATA_ELEMENT_ID", s.dataElementId)]
  }

  /** The names whose value is unset or empty, in list order. */
  function MissingNames(req: seq<(string, Option<string>)>): (missing: seq<string>)
    ensures |missing| <= |req|
  {
    if req == [] then [] else Report(req[0]) + MissingNames(req[1..])
  }

  /** The name of one setting if it is unset or empty, else nothing. */
  function Report(setting: (string, Option<string>)): (r: seq<string>)
    ensures r == [] <==> Truthy(setting.1)
    ensures r != [] ==> r == [setting.0]
  {
    if Truthy(setting.1) then [] else [setting.0]
  }

  lemma {:induction false} MissingNamesAppend(a: seq<(string, Option<string>)>, b: seq<(string, Option<string>)>)
    ensures MissingNames(a + b) == MissingNames(a) + MissingNames(b)
  {
    if a == [] {
      assert a + b == b;
    } else {
      assert (a + b)[0] == a[0] && (a + b)[1..] == a[1..] + b;
      MissingNamesAppend(a[1..], b);
    }
  }

  /** A name is reported exactly when one of the listed settings with that
      name is unset or empty. */
  lemma {:induction false} MissingNamesMembership(req: seq<(string, Option<string>)>, name: string)
    ensures name in MissingNames(req) <==> exists i :: 0 <= i < |req| && req[i].0 == name && !Truthy(req[i].1)
  {
    if req != [] {
      MissingNamesMembership(req[1..], name);
      if exists i :: 0 <= i < |req| && req[i].0 == name && !Truthy(req[i].1) {
        var i :| 0 <= i < |req| && req[i].0 == name && !Truthy(req[i].1);
        if i > 0 {
          assert req[1..][i - 1] == req[i];
        }
      }
      if exists j :: 0 <= j < |req[1..]| && req[1..][j].0 == name && !Truthy(req[1..][j].1) {
        var j :| 0 <= j < |req[1..]| && req[1..][j].0 == name && !Truthy(req[1..][j].1);
        assert req[j + 1] == req[1..][j];
      }
    }
  }

  /** Nothing is reported exactly when every listed setting is set and
      non-empty. */
  lemma {:induction false} MissingNamesEmpty(req: seq<(string, Option<string>)>)
    ensures MissingNames(req) == [] <==> forall i :: 0 <= i < |req| ==> Truthy(req[i].1)
  {
    if req != [] {
      MissingNamesEmpty(req[1..]);
      if forall i :: 0 <= i < |req[1..]| ==> Truthy(req[1..][i].1) {
        if Truthy(req[0].1) {
          forall i | 0 <= i < |req|
            ensures Truthy(req[i].1)
          {
            if i > 0 {
              assert req[i] == req[1..][i - 1];
            }
          }
        }
      } else {
        var j :| 0 <= j < |req[1..]| && !Truthy(req[1..][j].1);
        assert req[j + 1] == req[1..][j];
      }
    }
  }

  /** `a` is `b` with some elements left out, order kept. */
  predicate IsSubsequence(a: seq<string>, b: seq<string>)
    decreases |b|
  {
    if a == [] then true
    else if b == [] then false
    else (a[0] == b[0] && IsSubsequence(a[1..], b[1..])) || IsSubsequence(a, b[1..])
  }

  function Names(req: seq<(string, Option<string>)>): (names: seq<string>)
    ensures |names| == |req|
    ensures forall i :: 0 <= i < |req| ==> names[i] == req[i].0
  {
    if req == [] then [] else [req[0].0] + Names(req[1..])
  }

  /** The report keeps the order of the list it checks. */
  lemma {:induction false} MissingNamesInOrder(req: seq<(string, Option<string>)>)
    ensures IsSubsequence(MissingNames(req), Names(req))
  {
    if req != [] {
      MissingNamesInOrder(req[1..]);
      assert Names(req)[1..] == Names(req[1..]);
      if Truthy(req[0].1) {
        assert MissingNames(req) == MissingNames(req[1..]);
        SubsequenceOfTail(MissingNames(req[1..]), Names(req));
      } else {
        assert MissingNames(req)[1..] == MissingNames(req[1..]);
      }
    }
  }

  lemma SubsequenceOfTail(a: seq<string>, b: seq<string>)
    requires b != [] && IsSubsequence(a, b[1..])
    ensures IsSubsequence(a, b)
  {
  }

  /** Checking five settings reports what checking each one alone reports,
      in turn. */
  lemma MissingNamesOneByOne(req: seq<(string, Option<string>)>)
    requires |req| == 5
    ensures MissingNames(req)
      == Report(req[0]) + Report(req[1]) + Report(req[2]) + Report(req[3]) + Report(req[4])
  {
    var t1 := req[1..];
    var t2 := t1[1..];
    var t3 := t2[1..];
    var t4 := t3[1..];
    assert t4[1..] == [];
    assert MissingNames(t4) == Report(req[4]) + MissingNames(t4[1..]);
    assert MissingNames(t3) == Report(req[3]) + MissingNames(t4);
    assert MissingNames(t2) == Report(req[2]) + MissingNames(t3);
    assert MissingNames(t1) == Report(req[1]) + MissingNames(t2);
  }

  /** What the report of main()'s five checks says: exactly the unset or
      empty names, in the order checked, and nothing when all are present. */
  lemma RequiredReport(s: Settings)
    ensures forall name :: name in MissingNames(Required(s)) <==>
      exists i :: 0 <= i < 5 && Required(s)[i].0 == name && !Truthy(Required(s)[i].1)
    ensures MissingNames(Required(s)) == [] <==> forall i :: 0 <= i < 5 ==> Truthy(Required(s)[i].1)
    ensures IsSubsequence(MissingNames(Required(s)), RequiredNames)
  {
    var req := Required(s);
    forall name
      ensures name in MissingNames(req) <==> exists i :: 0 <= i < 5 && req[i].0 == name && !Truthy(req[i].1)
    {
      MissingNamesMembership(req, name);
    }
    MissingNamesEmpty(req);
    MissingNamesInOrder(req);
  }

  /** The validation step of main(): build the list of missing names with one
      test per required setting. */
  method CollectMissing(s: Settings) returns (missing: seq<string>)
    ensures missing == MissingNames(Required(s))
    ensures forall name :: name in missing <==>
      exists i :: 0 <= i < 5 && Required(s)[i].0 == name && !Truthy(Required(s)[i].1)
    ensures missing == [] <==> forall i :: 0 <= i < 5 ==> Truthy(Required(s)[i].1)
    ensures IsSubsequence(missing, RequiredNames)
  {
    var req := Required(s);
    missing := [];
    if !Truthy(s.cdsapiKey) {
      missing := missing + ["CDSAPI_KEY"];
    }
    assert missing == Report(req[0]);
    if !Truthy(s.baseUrl) {
      missing := missing + ["DHIS2_BASE_URL"];
    }
    assert missing == Report(req[0]) + Report(req[1]);
    if !Truthy(s.username) {
      missing := missing + ["DHIS2_USERNAME"];
    }
    assert missing == Report(req[0]) + Report(req[1]) + Report(req[2]);
    if !Truthy(s.password) {
      missing := missing + ["DHIS2_PASSWORD"];
    }
    assert missing == Report(req[0]) + Report(req[1]) + Report(req[2]) + Report(req[3]);
    if !Truthy(s.dataElementId) {
      missing := missing + ["DHIS2_DATA_ELEMENT_ID"];
    }
    MissingNamesOneByOne(req);
    RequiredReport(s);
  }
}
