/** Where an import run starts: the later of the configured start date and the
    first day of the month of the latest period DHIS2 already holds. Dates stay
    strings throughout, as in main.py, and "later" is Python's string order. */
module ResumePoint {
  import opened PyStrings

  /** The `existing` field of the latest-period response. `None` stands for
      every falsy value (`null`, an empty object); a present period has an
      `id` such as "20250115". */
  datatype Period = Period(id: string)

  /** `last_imported_period["id"][:6] if last_imported_period else None`. */
  function LastImportedMonth(existing: Option<Period>): (m: Option<string>)
    ensures existing.None? <==> m.None?
    ensures existing.Some? ==> m.value == existing.value.id[..Min(6, |existing.value.id|)]
  {
    if existing.Some? then Some(Slice(existing.value.id, 0, 6)) else None
  }

  /** The f-string that turns a `YYYYMM` month into the ISO date `YYYY-MM-01`;
      a shorter month string gives a shorter, malformed date that still ends
      in "-01". */
  function MonthStartDate(month: string): (d: string)
    ensures |month| >= 6 ==>
      |d| == 10 && d[..4] == month[..4] && d[4] == '-' && d[5..7] == month[4..6] && d[7..] == "-01"
    ensures |d| >= 4 && d[|d| - 3..] == "-01"
  {
    Slice(month, 0, 4) + "-" + Slice(month, 4, 6) + "-01"
  }

  /** `import_start_date` of import_era5_land_to_dhis2: the configured date
      when no non-empty period id is on record, otherwise the string maximum
      of that date and the first day of the period's month. */
  function ImportStartDate(existing: Option<Period>, startDate: string): (r: string)
    ensures !Less(r, startDate)
    ensures !Truthy(LastImportedMonth(existing)) ==> r == startDate
    ensures Truthy(LastImportedMonth(existing)) ==>
      var d := MonthStartDate(LastImportedMonth(existing).value);
      (r == d || r == startDate) && !Less(r, d)
  {
    LessIrreflexive(startDate);
    var month := LastImportedMonth(existing);
    if Truthy(month) then Max(MonthStartDate(month.value), startDate) else startDate
  }

  /** The derived date is the period's year, a dash, its month, and "-01". */
  lemma MonthStartDateLayout(id: string)
    requires |id| >= 6
    ensures var d := MonthStartDate(Slice(id, 0, 6));
      |d| == 10 && d[..4] == id[..4] && d[4] == '-' && d[5..7] == id[4..6] && d[7..] == "-01"
  {
    var m := Slice(id, 0, 6);
    assert Slice(m, 0, 4) == id[..4];
    assert Slice(m, 4, 6) == id[4..6];
  }

  /** With no period on record the configured start date is used unchanged;
      so it is when the period id is empty, since "" is falsy. */
  lemma NoPeriodKeepsStart(existing: Option<Period>, startDate: string)
    requires existing.None? || existing.value.id == ""
    ensures ImportStartDate(existing, startDate) == startDate
  {
  }

  /** With a period on record the start is the string maximum of its month's
      first day and the configured start, so it is one of the two and neither
      is greater. */
  lemma PeriodGivesMaximum(id: string, startDate: string)
    requires id != ""
    ensures var d := MonthStartDate(Slice(id, 0, 6));
      var r := ImportStartDate(Some(Period(id)), startDate);
      r == Max(d, startDate) && (r == d || r == startDate) && !Less(r, d) && !Less(r, startDate)
  {
    assert Slice(id, 0, 6) != "" by {
      assert Slice(id, 0, 6)[0] == id[0];
    }
  }

  // ---------------------------------------------------------------------------
  // Why comparing dates as strings is sound: on `YYYY-MM-DD` strings the code
  // point order is the chronological order.
  // ---------------------------------------------------------------------------

  predicate IsDigit(c: char)
  {
    '0' <= c <= '9'
  }

  function DigitValue(c: char): nat
    requires IsDigit(c)
  {
    c as int - '0' as int
  }

  function Pow10(k: nat): (p: nat)
    ensures p >= 1
  {
    if k == 0 then 1 else 10 * Pow10(k - 1)
  }

  function DigitCount(s: string): nat
  {
    if s == [] then 0 else (if IsDigit(s[0]) then 1 else 0) + DigitCount(s[1..])
  }

  /** The digits of `s`, separators skipped, read as one decimal number. */
  function DigitsNumber(s: string): nat
  {
    if s == [] then 0
    else if IsDigit(s[0]) then DigitValue(s[0]) * Pow10(DigitCount(s[1..])) + DigitsNumber(s[1..])
    else DigitsNumber(s[1..])
  }

  /** The shape `YYYY-MM-DD`. */
  predicate IsIsoDate(s: string)
  {
    |s| == 10 && s[4] == '-' && s[7] == '-'
    && forall i :: 0 <= i < 10 && i != 4 && i != 7 ==> IsDigit(s[i])
  }

  /** Two strings with digits in the same places and the same characters
      everywhere else. */
  predicate SameLayout(a: string, b: string)
  {
    |a| == |b|
    && forall i :: 0 <= i < |a| ==> (IsDigit(a[i]) <==> IsDigit(b[i])) && (!IsDigit(a[i]) ==> a[i] == b[i])
  }

  lemma LeadingDigitBound(x: nat, p: nat, v: nat)
    requires x <= 9 && v < p
    ensures x * p + v < 10 * p
  {
    assert x * p <= 9 * p;
  }

  lemma LeadingDigitDecides(x: nat, y: nat, p: nat, u: nat, v: nat)
    requires x < y && u < p
    ensures x * p + u < y * p + v
  {
    var k := y - x - 1;
    assert y * p == x * p + p + k * p;
  }

  lemma {:induction false} DigitsNumberBound(s: string)
    ensures DigitsNumber(s) < Pow10(DigitCount(s))
  {
    if s != [] {
      DigitsNumberBound(s[1..]);
      if IsDigit(s[0]) {
        LeadingDigitBound(DigitValue(s[0]), Pow10(DigitCount(s[1..])), DigitsNumber(s[1..]));
      }
    }
  }

  lemma {:induction false} SameLayoutDigitCount(a: string, b: string)
    requires SameLayout(a, b)
    ensures DigitCount(a) == DigitCount(b)
  {
    if a != [] {
      assert SameLayout(a[1..], b[1..]) by {
        forall i | 0 <= i < |a[1..]|
          ensures (IsDigit(a[1..][i]) <==> IsDigit(b[1..][i])) && (!IsDigit(a[1..][i]) ==> a[1..][i] == b[1..][i])
        {
          assert a[1..][i] == a[i + 1] && b[1..][i] == b[i + 1];
        }
      }
      SameLayoutDigitCount(a[1..], b[1..]);
    }
  }

  /** Code-point order and numeric order agree on strings of the same layout. */
  lemma {:induction false} LessIsNumericLess(a: string, b: string)
    requires SameLayout(a, b)
    ensures Less(a, b) <==> DigitsNumber(a) < DigitsNumber(b)
  {
    if a != [] {
      var a', b' := a[1..], b[1..];
      assert SameLayout(a', b') by {
        forall i | 0 <= i < |a'|
          ensures (IsDigit(a'[i]) <==> IsDigit(b'[i])) && (!IsDigit(a'[i]) ==> a'[i] == b'[i])
        {
          assert a'[i] == a[i + 1] && b'[i] == b[i + 1];
        }
      }
      SameLayoutDigitCount(a', b');
      var p := Pow10(DigitCount(a'));
      if a[0] != b[0] {
        assert IsDigit(a[0]) && IsDigit(b[0]);
        DigitsNumberBound(a');
        DigitsNumberBound(b');
        var x, y := DigitValue(a[0]), DigitValue(b[0]);
        if x < y {
          LeadingDigitDecides(x, y, p, DigitsNumber(a'), DigitsNumber(b'));
        } else {
          LeadingDigitDecides(y, x, p, DigitsNumber(b'), DigitsNumber(a'));
        }
      } else {
        LessIsNumericLess(a', b');
      }
    }
  }

  /** The number read from an ISO date is `YYYYMMDD`, so numeric order on it
      is the order of (year, month, day). */
  function DateNumber(s: string): nat
    requires IsIsoDate(s)
  {
    DigitsNumber(s)
  }

  lemma IsoDatesShareLayout(a: string, b: string)
    requires IsIsoDate(a) && IsIsoDate(b)
    ensures SameLayout(a, b)
  {
    forall i | 0 <= i < |a|
      ensures (IsDigit(a[i]) <==> IsDigit(b[i])) && (!IsDigit(a[i]) ==> a[i] == b[i])
    {
      if i != 4 && i != 7 {
        assert IsDigit(a[i]) && IsDigit(b[i]);
      }
    }
  }

  /** A period id whose first six characters are digits yields an ISO date. */
  lemma {:induction false} MonthStartDateIsIso(id: string)
    requires |id| >= 6 && forall i :: 0 <= i < 6 ==> IsDigit(id[i])
    ensures IsIsoDate(MonthStartDate(Slice(id, 0, 6)))
  {
    MonthStartDateLayout(id);
    var d := MonthStartDate(Slice(id, 0, 6));
    forall i | 0 <= i < 10 && i != 4 && i != 7
      ensures IsDigit(d[i])
    {
      if i < 4 {
        assert d[i] == d[..4][i] == id[i];
      } else if i < 7 {
        assert d[i] == d[5..7][i - 5] == id[i - 1];
      } else {
        assert d[i] == d[7..][i - 7];
      }
    }
  }

  /** When the configured start date and the period are well formed, the
      import starts on the chronologically later of the two dates. */
  lemma ImportStartIsLaterDate(id: string, startDate: string)
    requires |id| >= 6 && forall i :: 0 <= i < 6 ==> IsDigit(id[i])
    requires IsIsoDate(startDate)
    ensures var d := MonthStartDate(Slice(id, 0, 6));
      var r := ImportStartDate(Some(Period(id)), startDate);
      IsIsoDate(d) && IsIsoDate(r)
      && DateNumber(r) == if DateNumber(d) < DateNumber(startDate) then DateNumber(startDate) else DateNumber(d)
  {
    var d := MonthStartDate(Slice(id, 0, 6));
    MonthStartDateIsIso(id);
    PeriodGivesMaximum(id, startDate);
    IsoDatesShareLayout(d, startDate);
    LessIsNumericLess(d, startDate);
  }

  /** The resume point re-includes the latest imported month: when that month
      is later than the configured start, the import starts on its first day. */
  lemma ResumeRefetchesLastMonth(id: string, startDate: string)
    requires |id| >= 6
    requires Less(startDate, MonthStartDate(Slice(id, 0, 6)))
    ensures var r := ImportStartDate(Some(Period(id)), startDate);
      r[..4] == id[..4] && r[5..7] == id[4..6] && r[7..] == "-01"
  {
    MonthStartDateLayout(id);
    PeriodGivesMaximum(id, startDate);
    LessAsymmetric(startDate, MonthStartDate(Slice(id, 0, 6)));
  }
}
