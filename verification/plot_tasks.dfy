/** The scheduled plot-generation tasks of `weather/tasks.py`: for each parameter and each
    forecast hour of the run, an image already on disk is skipped and counted as generated,
    and otherwise the plot function is called and its success counted. The disk is the set of
    image names present before the task; the plot function is an oracle on the image name. */
module PlotTasks {
  import opened Wrappers
  import opened ForecastHours

  type Generator = string -> bool

  /** Whether the image for one parameter and hour counts as generated. */
  predicate Produced(prefix: string, date: string, runHour: string, fhr: string, disk: set<string>, succeeds: Generator)
  {
    var name := ImageName(prefix, date, runHour, fhr);
    name in disk || succeeds(name)
  }

  /** The reference count of generated images for one parameter. */
  function GeneratedCount(prefix: string, date: string, runHour: string, hours: seq<string>, disk: set<string>, succeeds: Generator): (r: nat)
    ensures r <= |hours|
  {
    if |hours| == 0 then 0
    else
      var last := if Produced(prefix, date, runHour, hours[|hours| - 1], disk, succeeds) then 1 else 0;
      GeneratedCount(prefix, date, runHour, hours[..|hours| - 1], disk, succeeds) + last
  }

  /** When every image is already on disk, every hour counts as generated. */
  lemma {:induction false} AllOnDiskAllGenerated(prefix: string, date: string, runHour: string, hours: seq<string>, disk: set<string>, succeeds: Generator)
    requires forall i :: 0 <= i < |hours| ==> ImageName(prefix, date, runHour, hours[i]) in disk
    ensures GeneratedCount(prefix, date, runHour, hours, disk, succeeds) == |hours|
  {
    if |hours| > 0 {
      var init := hours[..|hours| - 1];
      assert forall i :: 0 <= i < |init| ==> init[i] == hours[i];
      AllOnDiskAllGenerated(prefix, date, runHour, init, disk, succeeds);
    }
  }

  /** When nothing is on disk and every call fails, every hour counts as failed. */
  lemma {:induction false} NothingProducedNoneGenerated(prefix: string, date: string, runHour: string, hours: seq<string>, disk: set<string>, succeeds: Generator)
    requires forall i :: 0 <= i < |hours| ==> !Produced(prefix, date, runHour, hours[i], disk, succeeds)
    ensures GeneratedCount(prefix, date, runHour, hours, disk, succeeds) == 0
  {
    if |hours| > 0 {
      var init := hours[..|hours| - 1];
      assert forall i :: 0 <= i < |init| ==> init[i] == hours[i];
      NothingProducedNoneGenerated(prefix, date, runHour, init, disk, succeeds);
    }
  }

  /** The inner loop for one parameter: each hour adds to exactly one of the two counts. */
  method PlotParameter(prefix: string, date: string, runHour: string, hours: seq<string>, disk: set<string>, succeeds: Generator)
    returns (generated: nat, failed: nat)
    ensures generated + failed == |hours|
    ensures generated == GeneratedCount(prefix, date, runHour, hours, disk, succeeds)
  {
    generated, failed := 0, 0;
    for i := 0 to |hours|
      invariant generated + failed == i
      invariant generated == GeneratedCount(prefix, date, runHour, hours[..i], disk, succeeds)
    {
      assert hours[..i + 1][..i] == hours[..i];
      var name := ImageName(prefix, date, runHour, hours[i]);
      if name in disk {
        generated := generated + 1;
      } else if succeeds(name) {
        generated := generated + 1;
      } else {
        failed := failed + 1;
      }
    }
    assert hours[..|hours|] == hours;
  }

  /** The reference run total: the per-parameter counts summed. */
  function TotalGenerated(prefixes: seq<string>, date: string, runHour: string, hours: seq<string>, disk: set<string>, succeeds: Generator): (r: nat)
    ensures r <= |prefixes| * |hours|
  {
    if |prefixes| == 0 then 0
    else
      var init := prefixes[..|prefixes| - 1];
      var rest := TotalGenerated(init, date, runHour, hours, disk, succeeds);
      assert |init| * |hours| + |hours| == |prefixes| * |hours|;
      rest + GeneratedCount(prefixes[|prefixes| - 1], date, runHour, hours, disk, succeeds)
  }

  /** A whole task run over a parameter list. */
  method RunTask(prefixes: seq<string>, date: string, runHour: string, hours: seq<string>, disk: set<string>, succeeds: Generator)
    returns (generatedTotal: nat, failedTotal: nat)
    ensures generatedTotal + failedTotal == |prefixes| * |hours|
    ensures generatedTotal == TotalGenerated(prefixes, date, runHour, hours, disk, succeeds)
  {
    generatedTotal, failedTotal := 0, 0;
    for k := 0 to |prefixes|
      invariant generatedTotal + failedTotal == k * |hours|
      invariant generatedTotal == TotalGenerated(prefixes[..k], date, runHour, hours, disk, succeeds)
    {
      assert prefixes[..k + 1][..k] == prefixes[..k];
      var generated, failed := PlotParameter(prefixes[k], date, runHour, hours, disk, succeeds);
      generatedTotal := generatedTotal + generated;
      failedTotal := failedTotal + failed;
      assert k * |hours| + |hours| == (k + 1) * |hours|;
    }
    assert prefixes[..|prefixes|] == prefixes;
  }

  // ---------------------------------------------------------------------------------------
  // The two tasks

  const GfsTaskPrefixes: seq<string> := ["gfs_t2m", "gfs_sbcape", "gfs_refc"]

  /** The NAM parameter list as the task writes it: the dew-point plot is saved under a
      `gfs_` prefix. */
  const NamTaskPrefixesAsWritten: seq<string> := ["nam_refc", "nam_sbcape", "gfs_dewp2m", "nam_scp", "nam_stp"]

  /** The NAM parameter list with the dew-point prefix the NAM page looks up. */
  const NamTaskPrefixes: seq<string> := ["nam_refc", "nam_sbcape", "nam_dewp2m", "nam_scp", "nam_stp"]

  /** `automated_gfs_plot_generation` for the run `date`/`runHour`. */
  method GfsPlotRun(date: string, runHour: string, disk: set<string>, succeeds: Generator)
    returns (generatedTotal: nat, failedTotal: nat)
    ensures generatedTotal + failedTotal == 3 * 21
    ensures generatedTotal == TotalGenerated(GfsTaskPrefixes, date, runHour, GfsHourLabels(), disk, succeeds)
  {
    GfsListShape();
    generatedTotal, failedTotal := RunTask(GfsTaskPrefixes, date, runHour, GfsHourLabels(), disk, succeeds);
  }

  /** `automated_nam_plot_generation` for the run `date`/`runHour`, with the corrected list. */
  method NamPlotRun(date: string, runHour: string, disk: set<string>, succeeds: Generator)
    returns (generatedTotal: nat, failedTotal: nat)
    ensures generatedTotal + failedTotal == 5 * 53
    ensures generatedTotal == TotalGenerated(NamTaskPrefixes, date, runHour, NamHourLabels(), disk, succeeds)
  {
    NamListShape();
    generatedTotal, failedTotal := RunTask(NamTaskPrefixes, date, runHour, NamHourLabels(), disk, succeeds);
  }

  /** Images whose prefixes differ within their first five characters never share a name. */
  lemma DistinctHeads(p: string, d: string, h: string, f: string, q: string, d2: string, h2: string, f2: string)
    requires |p| >= 5 && |q| >= 5 && p[..5] != q[..5]
    ensures ImageName(p, d, h, f) != ImageName(q, d2, h2, f2)
  {
    var a, b := ImageName(p, d, h, f), ImageName(q, d2, h2, f2);
    assert a[..5] == a[..|p|][..5] == p[..5];
    assert b[..5] == b[..|q|][..5] == q[..5];
  }

  /** As written, no image the NAM task produces or skips is ever the image the NAM page shows
      for the dew-point parameter, whatever the run and hours. */
  lemma AsWrittenDewPointMissing(date: string, runHour: string, fhr: string, pageDate: string, pageRunHour: string, pageFhr: string)
    ensures NamParams[2].code == "dewp2m"
    ensures forall k :: 0 <= k < |NamTaskPrefixesAsWritten| ==>
      ImageName(NamTaskPrefixesAsWritten[k], date, runHour, fhr) != ImageName(NamParams[2].prefix, pageDate, pageRunHour, pageFhr)
  {
    var q := NamParams[2].prefix;
    forall k | 0 <= k < |NamTaskPrefixesAsWritten|
      ensures ImageName(NamTaskPrefixesAsWritten[k], date, runHour, fhr) != ImageName(q, pageDate, pageRunHour, pageFhr)
    {
      var p := NamTaskPrefixesAsWritten[k];
      assert p[..5] != q[..5] by {
        assert q[0] == 'n' && q[4] == 'd';
        assert p[0] == 'g' || p[4] != 'd';
      }
      DistinctHeads(p, date, runHour, fhr, q, pageDate, pageRunHour, pageFhr);
    }
  }

  /** Every prefix the NAM page can look up is one the corrected task produces. */
  lemma PagePrefixesProduced()
    ensures forall p :: p in NamParams ==> p.prefix in NamTaskPrefixes
  {
    forall p | p in NamParams ensures p.prefix in NamTaskPrefixes {
      var k :| 0 <= k < |NamParams| && NamParams[k] == p;
      assert NamTaskPrefixes[k] == NamParams[k].prefix;
    }
  }

  /** With the corrected list, every NAM page image for a listed hour is one the task produces
      (or skips as present), whatever parameter code the page was asked for. */
  lemma EveryNamPagePlotIsGenerated(code: Option<string>, j: nat, date: string, runHour: string)
    requires j < 53
    ensures exists k ::
      && 0 <= k < |NamTaskPrefixes|
      && NamPageImage(code, NamHourLabels()[j], date, runHour) == ImageName(NamTaskPrefixes[k], date, runHour, NamHourLabels()[j])
  {
    ListedHoursValidate();
    PagePrefixesProduced();
    var fhr := NamHourLabels()[j];
    assert NamHour(fhr) == fhr;
    var p := PageParam(NamParams, code);
    assert NamPageImage(code, fhr, date, runHour) == ImageName(p.prefix, date, runHour, fhr);
    var k :| 0 <= k < |NamTaskPrefixes| && NamTaskPrefixes[k] == p.prefix;
  }
}
