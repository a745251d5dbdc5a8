/** The control flow of `import_era5_land_to_dhis2` and `main`: which branch a
    run takes, from where it downloads, what it hands to the aggregation step,
    whether it converts units and what it posts. The DHIS2 client, the climate
    data download and the raster code are outside the model: their answers
    come in as parameters. */
module ImportRun {
  import opened PyStrings
  import opened ResumePoint
  import opened Deaccumulation
  import opened Settings

  /** What was sent to `/api/dataValueSets`: the path and the `dryRun`
      parameter. The payload itself is built by a library helper. */
  datatype Post = Post(path: string, dryRunParameter: string)

  datatype Run =
    | NoNewFiles(start: string)
      /** `series` is what the temporal aggregation receives, for one grid cell. */
    | Posted(start: string, series: seq<int>, converted: bool, post: Post)

  /** Unit conversion runs only when the two unit names differ. */
  predicate NeedsConversion(fromUnits: string, toUnits: string)
  {
    toUnits != fromUnits
  }

  /** One call of import_era5_land_to_dhis2. `existing` is the latest-period
      answer, `files` what the download returned for the range starting at
      the computed date, and `hourly` one grid cell's series over `valid_time`. */
  function Import(existing: Option<Period>, startDate: string, files: seq<string>,
                  isCumulative: bool, hourly: seq<int>,
                  fromUnits: string, toUnits: string, dryRun: bool): (r: Run)
    ensures r.start == ImportStartDate(existing, startDate)
    ensures r.NoNewFiles? <==> files == []
  {
    var start := ImportStartDate(existing, startDate);
    if files == [] then NoNewFiles(start)
    else
      var series := if isCumulative then Deaccumulate(hourly) else hourly;
      Posted(start, series, NeedsConversion(fromUnits, toUnits),
             Post("/api/dataValueSets", DryRunParameter(dryRun)))
  }

  /** A run that posts tells DHIS2 to validate only exactly when it is a dry
      run, and the parameter reads back as the flag. */
  lemma PostCarriesDryRun(existing: Option<Period>, startDate: string, files: seq<string>,
                          isCumulative: bool, hourly: seq<int>,
                          fromUnits: string, toUnits: string, dryRun: bool)
    requires files != []
    ensures var r := Import(existing, startDate, files, isCumulative, hourly, fromUnits, toUnits, dryRun);
      r.Posted? && r.post.path == "/api/dataValueSets"
      && (r.post.dryRunParameter == "true" <==> dryRun)
      && (r.post.dryRunParameter == "false" <==> !dryRun)
      && DryRun(Some(r.post.dryRunParameter)) == dryRun
  {
    DryRunParameterRoundTrip(dryRun);
  }

  /** A download that returns no files posts nothing, whatever the dry-run
      flag. */
  lemma NoFilesNoPost(existing: Option<Period>, startDate: string,
                      isCumulative: bool, hourly: seq<int>,
                      fromUnits: string, toUnits: string, dryRun: bool)
    ensures !Import(existing, startDate, [], isCumulative, hourly, fromUnits, toUnits, dryRun).Posted?
  {
  }

  /** Conversion is skipped exactly when the units are the same. */
  lemma ConversionSkippedForSameUnits(existing: Option<Period>, startDate: string, files: seq<string>,
                                      isCumulative: bool, hourly: seq<int>,
                                      fromUnits: string, toUnits: string, dryRun: bool)
    requires files != []
    ensures Import(existing, startDate, files, isCumulative, hourly, fromUnits, toUnits, dryRun).converted
      <==> fromUnits != toUnits
  {
  }

  /** A cumulative variable reaches the aggregation as increments, one fewer
      than the hourly values (none for an empty series), each following the
      reset rule; any other variable reaches it unchanged. */
  lemma SeriesHandedOn(existing: Option<Period>, startDate: string, files: seq<string>,
                       isCumulative: bool, hourly: seq<int>,
                       fromUnits: string, toUnits: string, dryRun: bool)
    requires files != []
    ensures var s := Import(existing, startDate, files, isCumulative, hourly, fromUnits, toUnits, dryRun).series;
      (!isCumulative ==> s == hourly)
      && (isCumulative ==>
            |s| == (if hourly == [] then 0 else |hourly| - 1)
            && forall i :: 0 <= i < |s| ==>
                 s[i] == if hourly[i + 1] - hourly[i] >= 0 then hourly[i + 1] - hourly[i] else hourly[i + 1])
  {
    if isCumulative {
      forall i | 0 <= i < |hourly| - 1
        ensures Deaccumulate(hourly)[i]
          == if hourly[i + 1] - hourly[i] >= 0 then hourly[i + 1] - hourly[i] else hourly[i + 1]
      {
        DeaccumulateAt(hourly, i);
      }
    }
  }

  /** How `main` ends. */
  datatype Outcome =
    | Exit(code: int, missing: seq<string>)
    | Ran(run: Run)

  /** `main` after the environment has been loaded: exit with status 1 and
      the list of missing names, or run the import with the loaded settings. */
  function RunMain(env: Env, existing: Option<Period>, files: seq<string>, hourly: seq<int>): (o: Outcome)
    ensures o.Exit? ==> o.code == 1 && o.missing != []
  {
    var s := Load(env);
    var missing := MissingNames(Required(s));
    if missing != [] then Exit(1, missing)
    else Ran(Import(existing, s.startDate, files, s.isCumulative, hourly, s.fromUnits, s.toUnits, s.dryRun))
  }

  /** A required variable counts as missing when it is unset or empty. */
  predicate MissingIn(env: Env, name: string)
  {
    name !in env || env[name] == ""
  }

  /** The program stops exactly when a required variable is unset or empty,
      and then it reports exactly those names, in the order main() checks
      them; it contacts DHIS2 only when all five are present. */
  lemma ExitsExactlyWhenSettingMissing(env: Env, existing: Option<Period>, files: seq<string>, hourly: seq<int>)
    ensures var o := RunMain(env, existing, files, hourly);
      (o.Exit? <==> exists k :: k in RequiredNames && MissingIn(env, k))
      && (o.Exit? ==>
            IsSubsequence(o.missing, RequiredNames)
            && forall name :: name in o.missing <==> name in RequiredNames && MissingIn(env, name))
  {
    var req := Required(Load(env));
    assert forall i :: 0 <= i < 5 ==> req[i] == (RequiredNames[i], Getenv(env, RequiredNames[i]));
    assert forall i :: 0 <= i < 5 ==> (Truthy(req[i].1) <==> !MissingIn(env, RequiredNames[i]));
    MissingNamesEmpty(req);
    MissingNamesInOrder(req);
    forall name
      ensures name in MissingNames(req) <==> name in RequiredNames && MissingIn(env, name)
    {
      MissingNamesMembership(req, name);
      if name in RequiredNames && MissingIn(env, name) {
        var i :| 0 <= i < 5 && RequiredNames[i] == name;
        assert req[i].0 == name && !Truthy(req[i].1);
      }
    }
  }

  /** An unset DHIS2_DRY_RUN never writes: a run that posts then asks DHIS2
      for a dry run. */
  lemma DefaultIsDryRun(env: Env, existing: Option<Period>, files: seq<string>, hourly: seq<int>)
    requires "DHIS2_DRY_RUN" !in env
    ensures var o := RunMain(env, existing, files, hourly);
      o.Ran? && o.run.Posted? ==> o.run.post.dryRunParameter == "true"
  {
  }
}
