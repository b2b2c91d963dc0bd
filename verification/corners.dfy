/**
  The multi-corner steps of openlane/steps/openroad.py, with the thread pool
  replaced by the order it is joined in: static timing analysis after
  place-and-route (`STAPostPNR.run`) and parasitics extraction (`RCX.run`).
  Each corner's tool run is a parameter; what is modelled is the SPEF
  selection for a corner, the join of the corners' results in declared
  order, and the merge of the produced files into the state's per-corner
  view dictionaries.
*/
module Corners {
  import opened Wrappers
  import opened Strings
  import opened Values
  import Seqs

  type Metrics = map<string, Value>

  /** A per-corner view dictionary of the design state: corner to file path. */
  type Views = map<string, Value>

  /** Why a multi-corner step stops: a `StepException`, or a failed tool run. */
  datatype StepError =
    | MalformedState(format: string)   // the state's value for a view is not a dictionary
    | NoSpefForCorner(corner: string)
    | ToolFailed(corner: string)

  // ---------------------------------------------------------------------
  // Joining per-corner results (openroad.py:552-561)

  /**
    The corners' metrics merged in order, later corners overwriting earlier
    ones, as `metrics_updates.update(future.result())` does; the first
    failing corner's error is raised.
  */
  function JoinMetrics(results: seq<Result<Metrics, StepError>>): (r: Result<Metrics, StepError>)
    decreases |results|
  {
    if |results| == 0 then Success(map[])
    else
      var prev := JoinMetrics(results[..|results| - 1]);
      var last := results[|results| - 1];
      if prev.Failure? then prev
      else if last.Failure? then Failure(last.error)
      else Success(prev.value + last.value)
  }

  /** The join fails exactly when some corner fails, and then with the first failing corner's error. */
  lemma {:induction false} JoinFirstFailure(results: seq<Result<Metrics, StepError>>)
    ensures JoinMetrics(results).Failure? <==> exists i :: 0 <= i < |results| && results[i].Failure?
    ensures JoinMetrics(results).Failure? ==>
      exists i :: 0 <= i < |results| && results[i] == Failure(JoinMetrics(results).error)
        && forall j :: 0 <= j < i ==> results[j].Success?
    decreases |results|
  {
    if |results| > 0 {
      var n := |results| - 1;
      var prefix := results[..n];
      JoinFirstFailure(prefix);
      if JoinMetrics(prefix).Failure? {
        var i :| 0 <= i < n && prefix[i] == Failure(JoinMetrics(prefix).error)
          && forall j :: 0 <= j < i ==> prefix[j].Success?;
        assert results[i] == prefix[i];
      } else {
        assert forall j :: 0 <= j < n ==> results[j] == prefix[j];
      }
    }
  }

  /**
    A successful join holds every key some corner reported, with the value
    of the last corner that reported it.
  */
  lemma {:induction false} JoinLaterWins(results: seq<Result<Metrics, StepError>>, key: string)
    requires JoinMetrics(results).Success?
    ensures forall i :: 0 <= i < |results| ==> results[i].Success?
    ensures key in JoinMetrics(results).value <==> exists i :: 0 <= i < |results| && key in results[i].value
    ensures forall i :: (0 <= i < |results| && key in results[i].value
                         && forall j :: i < j < |results| ==> key !in results[j].value) ==>
      JoinMetrics(results).value[key] == results[i].value[key]
    decreases |results|
  {
    if |results| > 0 {
      var n := |results| - 1;
      var prefix := results[..n];
      assert JoinMetrics(prefix).Success? && results[n].Success?;
      JoinLaterWins(prefix, key);
      var before := JoinMetrics(prefix).value;
      var last := results[n].value;
      assert JoinMetrics(results).value == before + last;
      assert forall j :: 0 <= j < n ==> results[j] == prefix[j];
      forall i | 0 <= i < |results| && key in results[i].value && forall j :: i < j < |results| ==> key !in results[j].value
        ensures JoinMetrics(results).value[key] == results[i].value[key]
      {
        if i < n {
          assert key !in last;
          assert forall j :: i < j < n ==> key !in prefix[j].value;
        }
      }
    }
  }

  /** Each distinct corner's result, in the order corners are first declared. */
  function CornerResults<T>(corners: seq<string>, run: string -> T): (r: seq<T>)
    ensures |r| == |Seqs.Dedupe(corners)|
    ensures forall i :: 0 <= i < |r| ==> r[i] == run(Seqs.Dedupe(corners)[i])
  {
    var cs := Seqs.Dedupe(corners);
    seq(|cs|, i requires 0 <= i < |cs| => run(cs[i]))
  }

  /**
    Every declared corner contributes exactly one result: the results are
    those of the distinct declared corners, no corner twice, in the order
    the corners are first declared.
  */
  lemma CornerResultsOnce<T>(corners: seq<string>, run: string -> T)
    ensures var cs := Seqs.Dedupe(corners);
      var r := CornerResults(corners, run);
      && |r| == |cs|
      && (forall c :: c in corners <==> c in cs)
      && Seqs.Distinct(cs)
      && Seqs.InFirstSeenOrder(corners, cs)
      && forall i :: 0 <= i < |r| ==> r[i] == run(cs[i])
  {
    Seqs.DedupeFirstSeenOrder(corners);
  }

  // ---------------------------------------------------------------------
  // View dictionaries (openroad.py:620-649, 1272-1286)

  /** `state_in[format] or {}`, which must be a dictionary. */
  function ViewBase(state: Value, format: string): (r: Result<Views, StepError>)
  {
    if !Truthy(state) then Success(map[])
    else if state.VDict? then Success(state.entries)
    else Failure(MalformedState(format))
  }

  /** A file the step writes for a corner: `<step_dir>/<dir>/<design><sep><corner><ext>`. */
  function CornerFile(stepDir: string, dir: string, design: string, sep: string, corner: string, ext: string): string {
    stepDir + "/" + dir + "/" + design + sep + corner + ext
  }

  /** The view dictionary with each corner set to `pathOf` of it. */
  function AddCorners(views: Views, corners: seq<string>, pathOf: string -> string): (r: Views)
    decreases |corners|
  {
    if |corners| == 0 then views
    else AddCorners(views, corners[..|corners| - 1], pathOf)[corners[|corners| - 1] := VStr(pathOf(corners[|corners| - 1]))]
  }

  /** Existing entries are kept unless a corner overwrites them; each corner gains its own file. */
  lemma {:induction false} AddCornersEntries(views: Views, corners: seq<string>, pathOf: string -> string)
    ensures AddCorners(views, corners, pathOf).Keys == views.Keys + set c | c in corners
    ensures forall c :: c in corners ==> AddCorners(views, corners, pathOf)[c] == VStr(pathOf(c))
    ensures forall k :: k in views && k !in corners ==> AddCorners(views, corners, pathOf)[k] == views[k]
    decreases |corners|
  {
    if |corners| > 0 {
      var n := |corners| - 1;
      AddCornersEntries(views, corners[..n], pathOf);
      assert corners == corners[..n] + [corners[n]];
      assert (set c | c in corners) == (set c | c in corners[..n]) + {corners[n]};
    }
  }

  // ---------------------------------------------------------------------
  // STAPostPNR (openroad.py:495-519, 552-561, 620-649)

  const SpefFormat: string := "SPEF"
  const LibFormat: string := "LIB"
  const SdfFormat: string := "SDF"

  /**
    The parasitics file a corner's timing analysis reads: the state's SPEF
    value must be a dictionary, and of the files `filterViews` finds
    compatible with the corner the first is used (several only warn).
  */
  function SelectSpef(corner: string, spefState: Value, filterViews: (Views, string) -> seq<string>): (r: Result<string, StepError>)
  {
    if !spefState.VDict? then Failure(MalformedState(SpefFormat))
    else
      var spefs := filterViews(spefState.entries, corner);
      if |spefs| < 1 then Failure(NoSpefForCorner(corner)) else Success(spefs[0])
  }

  lemma SelectSpefCases(corner: string, spefState: Value, filterViews: (Views, string) -> seq<string>)
    ensures var r := SelectSpef(corner, spefState, filterViews);
      && (r == Failure(MalformedState(SpefFormat)) <==> !spefState.VDict?)
      && (r == Failure(NoSpefForCorner(corner)) <==> spefState.VDict? && filterViews(spefState.entries, corner) == [])
      && (r.Success? ==> r.value == filterViews(spefState.entries, corner)[0])
  {
  }

  /** `CURRENT_SPEF_BY_CORNER`: the corner and its parasitics file. */
  function SpefByCorner(corner: string, spef: string): string {
    corner + " " + spef
  }

  /** One corner's analysis: the SPEF selection, then the tool run, which may fail. */
  function StaCorner(corner: string, spefState: Value, filterViews: (Views, string) -> seq<string>,
                     measure: (string, string) -> Option<Metrics>): (r: Result<Metrics, StepError>)
  {
    var spef :- SelectSpef(corner, spefState, filterViews);
    match measure(corner, SpefByCorner(corner, spef))
    case None => Failure(ToolFailed(corner))
    case Some(m) => Success(m)
  }

  /**
    A corner's analysis fails for the SPEF state exactly when that is no
    dictionary, for a missing SPEF exactly when no file is compatible with
    the corner, and for the tool exactly when the run with the first
    compatible file fails; otherwise it reports that run's metrics.
  */
  lemma StaCornerOutcome(corner: string, spefState: Value, filterViews: (Views, string) -> seq<string>,
                         measure: (string, string) -> Option<Metrics>)
    ensures var r := StaCorner(corner, spefState, filterViews, measure);
      && (r == Failure(MalformedState(SpefFormat)) <==> !spefState.VDict?)
      && (r == Failure(NoSpefForCorner(corner)) <==> spefState.VDict? && filterViews(spefState.entries, corner) == [])
      && (r == Failure(ToolFailed(corner)) <==>
            && spefState.VDict? && filterViews(spefState.entries, corner) != []
            && measure(corner, SpefByCorner(corner, filterViews(spefState.entries, corner)[0])).None?)
      && (r.Success? <==>
            && spefState.VDict? && filterViews(spefState.entries, corner) != []
            && measure(corner, SpefByCorner(corner, filterViews(spefState.entries, corner)[0])).Some?)
      && (r.Success? ==> measure(corner, SpefByCorner(corner, filterViews(spefState.entries, corner)[0])) == Some(r.value))
  {
    SelectSpefCases(corner, spefState, filterViews);
  }

  datatype StaOutput = StaOutput(lib: Views, sdf: Views, metrics: Metrics)

  /** Each declared corner's analysis, a corner declared twice once, in declared order. */
  function StaResults(corners: seq<string>, spefState: Value, filterViews: (Views, string) -> seq<string>,
                      measure: (string, string) -> Option<Metrics>): seq<Result<Metrics, StepError>>
  {
    CornerResults(corners, c => StaCorner(c, spefState, filterViews, measure))
  }

  function LibFile(stepDir: string, design: string): string -> string {
    c => CornerFile(stepDir, c, design, "__", c, ".lib")
  }

  function SdfFile(stepDir: string, design: string): string -> string {
    c => CornerFile(stepDir, c, design, "__", c, ".sdf")
  }

  /** The LIB and SDF dictionaries after the step: each must be a dictionary and gains this step's files. */
  function StaViews(libState: Value, sdfState: Value, corners: seq<string>, stepDir: string, design: string): (r: Result<(Views, Views), StepError>)
  {
    var libBase :- ViewBase(libState, LibFormat);
    var sdfBase :- ViewBase(sdfState, SdfFormat);
    Success((AddCorners(libBase, corners, LibFile(stepDir, design)), AddCorners(sdfBase, corners, SdfFile(stepDir, design))))
  }

  /**
    `STAPostPNR.run`: every declared corner is analysed, the results are
    joined in declared order, and the LIB and SDF dictionaries gain this
    step's file for each corner.  `aggregate` stands for `aggregate_metrics`
    with the timing reduction policy.
  */
  function StaPostPnr(corners: seq<string>, spefState: Value, libState: Value, sdfState: Value,
                      filterViews: (Views, string) -> seq<string>, measure: (string, string) -> Option<Metrics>,
                      aggregate: Metrics -> Metrics, stepDir: string, design: string): (r: Result<StaOutput, StepError>)
  {
    var joined :- JoinMetrics(StaResults(corners, spefState, filterViews, measure));
    var views :- StaViews(libState, sdfState, corners, stepDir, design);
    Success(StaOutput(views.0, views.1, aggregate(joined)))
  }

  /**
    A failing corner stops the step before the view dictionaries are looked
    at; otherwise the step yields the aggregated join and the merged views.
  */
  lemma StaPostPnrOrder(corners: seq<string>, spefState: Value, libState: Value, sdfState: Value,
                        filterViews: (Views, string) -> seq<string>, measure: (string, string) -> Option<Metrics>,
                        aggregate: Metrics -> Metrics, stepDir: string, design: string)
    ensures var r := StaPostPnr(corners, spefState, libState, sdfState, filterViews, measure, aggregate, stepDir, design);
      var joined := JoinMetrics(StaResults(corners, spefState, filterViews, measure));
      var views := StaViews(libState, sdfState, corners, stepDir, design);
      && (joined.Failure? ==> r == Failure(joined.error))
      && (joined.Success? && views.Failure? ==> r == Failure(views.error))
      && (joined.Success? && views.Success? ==> r == Success(StaOutput(views.value.0, views.value.1, aggregate(joined.value))))
  {
  }

  /** `joined` holds every key some result reported, with the value of the last result that reported it. */
  ghost predicate LaterWins(joined: Metrics, results: seq<Result<Metrics, StepError>>)
    requires forall i :: 0 <= i < |results| ==> results[i].Success?
  {
    forall key: string ::
      && (key in joined <==> exists i :: 0 <= i < |results| && key in results[i].value)
      && forall i :: (0 <= i < |results| && key in results[i].value
                      && forall j :: i < j < |results| ==> key !in results[j].value) ==>
           key in joined && joined[key] == results[i].value[key]
  }

  /**
    The step fails exactly when some distinct corner's analysis fails or a
    LIB or SDF value is malformed.  A failing corner wins, and then the
    first failing corner in declared order; with every corner through, the
    view error is reported.  On success the metrics are the aggregate of
    the corners' metrics merged with later corners winning, and the views
    are the merged dictionaries.
  */
  lemma StaPostPnrOutcome(corners: seq<string>, spefState: Value, libState: Value, sdfState: Value,
                          filterViews: (Views, string) -> seq<string>, measure: (string, string) -> Option<Metrics>,
                          aggregate: Metrics -> Metrics, stepDir: string, design: string)
    ensures var r := StaPostPnr(corners, spefState, libState, sdfState, filterViews, measure, aggregate, stepDir, design);
      var res := StaResults(corners, spefState, filterViews, measure);
      var views := StaViews(libState, sdfState, corners, stepDir, design);
      && (r.Failure? <==> (exists i :: 0 <= i < |res| && res[i].Failure?) || views.Failure?)
      && ((exists i :: 0 <= i < |res| && res[i].Failure?) ==>
            exists i :: 0 <= i < |res| && res[i].Failure? && r == Failure(res[i].error)
              && forall j :: 0 <= j < i ==> res[j].Success?)
      && ((forall i :: 0 <= i < |res| ==> res[i].Success?) && views.Failure? ==> r == Failure(views.error))
      && (r.Success? ==>
            && (forall i :: 0 <= i < |res| ==> res[i].Success?)
            && JoinMetrics(res).Success?
            && LaterWins(JoinMetrics(res).value, res)
            && views.Success?
            && r.value == StaOutput(views.value.0, views.value.1, aggregate(JoinMetrics(res).value)))
  {
    var res := StaResults(corners, spefState, filterViews, measure);
    StaPostPnrOrder(corners, spefState, libState, sdfState, filterViews, measure, aggregate, stepDir, design);
    JoinFirstFailure(res);
    var joined := JoinMetrics(res);
    if joined.Success? {
      forall key: string
        ensures && (key in joined.value <==> exists i :: 0 <= i < |res| && key in res[i].value)
                && forall i :: (0 <= i < |res| && key in res[i].value
                                && forall j :: i < j < |res| ==> key !in res[j].value) ==>
                     key in joined.value && joined.value[key] == res[i].value[key]
      {
        JoinLaterWins(res, key);
      }
    }
  }

  /**
    A malformed-view error names the view at fault; on success each
    dictionary keeps its entries and gains this step's file for each corner.
  */
  lemma StaViewsResult(libState: Value, sdfState: Value, corners: seq<string>, stepDir: string, design: string)
    ensures var r := StaViews(libState, sdfState, corners, stepDir, design);
      && (r.Failure? <==> ViewBase(libState, LibFormat).Failure? || ViewBase(sdfState, SdfFormat).Failure?)
      && (r == Failure(MalformedState(LibFormat)) <==> ViewBase(libState, LibFormat).Failure?)
      && (r == Failure(MalformedState(SdfFormat)) <==>
            ViewBase(libState, LibFormat).Success? && ViewBase(sdfState, SdfFormat).Failure?)
      && (r.Success? ==>
            && r.value.0.Keys == ViewBase(libState, LibFormat).value.Keys + (set c | c in corners)
            && r.value.1.Keys == ViewBase(sdfState, SdfFormat).value.Keys + (set c | c in corners)
            && (forall c :: c in corners ==>
                  && r.value.0[c] == VStr(CornerFile(stepDir, c, design, "__", c, ".lib"))
                  && r.value.1[c] == VStr(CornerFile(stepDir, c, design, "__", c, ".sdf")))
            && (forall k :: k in ViewBase(libState, LibFormat).value && k !in corners ==>
                  r.value.0[k] == ViewBase(libState, LibFormat).value[k])
            && (forall k :: k in ViewBase(sdfState, SdfFormat).value && k !in corners ==>
                  r.value.1[k] == ViewBase(sdfState, SdfFormat).value[k]))
  {
    var libBase := ViewBase(libState, LibFormat);
    var sdfBase := ViewBase(sdfState, SdfFormat);
    if libBase.Success? && sdfBase.Success? {
      AddCornersEntries(libBase.value, corners, LibFile(stepDir, design));
      AddCornersEntries(sdfBase.value, corners, SdfFile(stepDir, design));
    }
  }

  /** The view check as written: a malformed SDF value is reported as a malformed LIB value. */
  function StaViewsAsWritten(libState: Value, sdfState: Value, corners: seq<string>, stepDir: string, design: string): (r: Result<(Views, Views), StepError>)
  {
    var libBase :- ViewBase(libState, LibFormat);
    var sdfBase :- ViewBase(sdfState, LibFormat);
    Success((AddCorners(libBase, corners, LibFile(stepDir, design)), AddCorners(sdfBase, corners, SdfFile(stepDir, design))))
  }

  /**
    With no LIB value (which is well-formed) and a number for SDF, the check
    as written reports a malformed LIB value, where the model reports SDF.
  */
  lemma StaViewsAsWrittenBlamesLib(corners: seq<string>, stepDir: string, design: string)
    ensures ViewBase(VNone, LibFormat).Success?
    ensures StaViewsAsWritten(VNone, VInt(1), corners, stepDir, design) == Failure(MalformedState(LibFormat))
    ensures StaViews(VNone, VInt(1), corners, stepDir, design) == Failure(MalformedState(SdfFormat))
  {
  }

  // ---------------------------------------------------------------------
  // RCX (openroad.py:1213-1286)

  /** What a corner's extraction used and produced. */
  datatype RcxRun = RcxRun(lef: string, ruleset: string, spef: string)

  /** The corner's name without surrounding `*` and `_`, as its directory and file are named. */
  function Sanitized(corner: string): string {
    StripChars(corner, {'*', '_'})
  }

  /**
    One corner's extraction: a corner without a ruleset or without a
    matching technology LEF is skipped with a warning; otherwise the first
    technology LEF is used and the tool run either fails or writes the SPEF.
  */
  function RcxCorner(corner: string, ruleset: Option<string>, techLefs: seq<string>, toolOk: bool,
                     stepDir: string, design: string): (r: Result<Option<RcxRun>, StepError>)
  {
    if ruleset.None? then Success(None)
    else if |techLefs| < 1 then Success(None)
    else if !toolOk then Failure(ToolFailed(corner))
    else
      var s := Sanitized(corner);
      Success(Some(RcxRun(techLefs[0], ruleset.value, CornerFile(stepDir, s, design, ".", s, ".spef"))))
  }

  /** A corner's extraction wrote a SPEF. */
  predicate Produced(result: Result<Option<RcxRun>, StepError>) {
    result.Success? && result.value.Some?
  }

  /**
    Collecting the corners' extractions in order into the SPEF dictionary:
    a skipped corner adds nothing, and the first failure is raised.
  */
  function CollectSpefs(spefs: Views, corners: seq<string>, results: seq<Result<Option<RcxRun>, StepError>>): (r: Result<Views, StepError>)
    requires |corners| == |results|
    decreases |corners|
  {
    if |corners| == 0 then Success(spefs)
    else
      var n := |corners| - 1;
      var prev :- CollectSpefs(spefs, corners[..n], results[..n]);
      match results[n]
      case Failure(e) => Failure(e)
      case Success(None) => Success(prev)
      case Success(Some(run)) => Success(prev[corners[n] := VStr(run.spef)])
  }

  /**
    A successful collection adds exactly the corners that produced a SPEF,
    each with its file, and keeps every other entry; a failed one raises the
    first failing corner's error.
  */
  lemma CollectSpefsEntries(spefs: Views, corners: seq<string>, results: seq<Result<Option<RcxRun>, StepError>>)
    requires |corners| == |results|
    ensures var r := CollectSpefs(spefs, corners, results);
      && (r.Success? <==> forall i :: 0 <= i < |results| ==> results[i].Success?)
      && (r.Failure? ==> exists i :: 0 <= i < |results| && results[i] == Failure(r.error)
                                    && forall j :: 0 <= j < i ==> results[j].Success?)
      && (r.Success? ==>
            && r.value.Keys == spefs.Keys + (set i | 0 <= i < |corners| && Produced(results[i]) :: corners[i])
            && forall k :: k in spefs && (forall i :: 0 <= i < |corners| && corners[i] == k ==> !Produced(results[i])) ==>
                 r.value[k] == spefs[k])
  {
    CollectSpefsFails(spefs, corners, results);
    if CollectSpefs(spefs, corners, results).Success? {
      CollectSpefsKeys(spefs, corners, results);
    }
  }

  /** The collection fails exactly when a corner fails, with the first failing corner's error. */
  lemma {:induction false} CollectSpefsFails(spefs: Views, corners: seq<string>, results: seq<Result<Option<RcxRun>, StepError>>)
    requires |corners| == |results|
    ensures CollectSpefs(spefs, corners, results).Success? <==> forall i :: 0 <= i < |results| ==> results[i].Success?
    ensures CollectSpefs(spefs, corners, results).Failure? ==>
      exists i :: 0 <= i < |results| && results[i] == Failure(CollectSpefs(spefs, corners, results).error)
                  && forall j :: 0 <= j < i ==> results[j].Success?
    decreases |corners|
  {
    if |corners| > 0 {
      var n := |corners| - 1;
      var cs, rs := corners[..n], results[..n];
      CollectSpefsFails(spefs, cs, rs);
      var prev := CollectSpefs(spefs, cs, rs);
      assert forall j :: 0 <= j < n ==> results[j] == rs[j];
      if prev.Failure? {
        var i :| 0 <= i < n && rs[i] == Failure(prev.error) && forall j :: 0 <= j < i ==> rs[j].Success?;
        assert results[i] == rs[i];
      }
    }
  }

  /** A successful collection adds the corners that produced a SPEF and keeps every other entry. */
  lemma {:induction false} CollectSpefsKeys(spefs: Views, corners: seq<string>, results: seq<Result<Option<RcxRun>, StepError>>)
    requires |corners| == |results|
    requires CollectSpefs(spefs, corners, results).Success?
    ensures CollectSpefs(spefs, corners, results).value.Keys ==
      spefs.Keys + (set i | 0 <= i < |corners| && Produced(results[i]) :: corners[i])
    ensures forall k :: k in spefs && (forall i :: 0 <= i < |corners| && corners[i] == k ==> !Produced(results[i])) ==>
      CollectSpefs(spefs, corners, results).value[k] == spefs[k]
    decreases |corners|
  {
    if |corners| > 0 {
      var n := |corners| - 1;
      var cs, rs := corners[..n], results[..n];
      CollectSpefsKeys(spefs, cs, rs);
      assert forall j :: 0 <= j < n ==> results[j] == rs[j] && corners[j] == cs[j];
      var before := set i | 0 <= i < n && Produced(rs[i]) :: cs[i];
      var after := set i | 0 <= i < |corners| && Produced(results[i]) :: corners[i];
      if Produced(results[n]) {
        assert after == before + {corners[n]};
      } else {
        assert after == before;
      }
    }
  }

  /** The last corner that produced a SPEF decides that corner's entry. */
  lemma {:induction false} CollectSpefsLast(spefs: Views, corners: seq<string>, results: seq<Result<Option<RcxRun>, StepError>>, i: nat)
    requires |corners| == |results| && i < |corners|
    requires CollectSpefs(spefs, corners, results).Success?
    requires Produced(results[i])
    requires forall j :: i < j < |corners| && corners[j] == corners[i] ==> !Produced(results[j])
    ensures corners[i] in CollectSpefs(spefs, corners, results).value
    ensures CollectSpefs(spefs, corners, results).value[corners[i]] == VStr(results[i].value.value.spef)
    decreases |corners|
  {
    var n := |corners| - 1;
    var cs, rs := corners[..n], results[..n];
    var prev := CollectSpefs(spefs, cs, rs);
    assert prev.Success?;
    if i < n {
      assert forall j :: 0 <= j < n ==> results[j] == rs[j] && corners[j] == cs[j];
      CollectSpefsLast(spefs, cs, rs, i);
    }
  }

  /** The ruleset corners, in the ruleset dictionary's order. */
  function RcxCorners(rulesets: seq<(string, Option<string>)>): (r: seq<string>)
    ensures |r| == |rulesets| && forall i :: 0 <= i < |rulesets| ==> r[i] == rulesets[i].0
  {
    seq(|rulesets|, i requires 0 <= i < |rulesets| => rulesets[i].0)
  }

  /** Each ruleset corner's extraction. */
  function RcxResults(rulesets: seq<(string, Option<string>)>, techLefsOf: string -> seq<string>,
                      toolOk: string -> bool, stepDir: string, design: string): (r: seq<Result<Option<RcxRun>, StepError>>)
    ensures |r| == |rulesets|
    ensures forall i :: 0 <= i < |rulesets| ==>
      r[i] == RcxCorner(rulesets[i].0, rulesets[i].1, techLefsOf(rulesets[i].0), toolOk(rulesets[i].0), stepDir, design)
  {
    seq(|rulesets|, i requires 0 <= i < |rulesets| =>
      RcxCorner(rulesets[i].0, rulesets[i].1, techLefsOf(rulesets[i].0), toolOk(rulesets[i].0), stepDir, design))
  }

  /**
    `RCX.run`: every ruleset corner is extracted; the state's SPEF value
    must be a dictionary (checked before any corner's outcome is looked
    at); the corners that produced a file gain their SPEF entry.
  */
  function Rcx(rulesets: seq<(string, Option<string>)>, spefState: Value, techLefsOf: string -> seq<string>,
               toolOk: string -> bool, stepDir: string, design: string): (r: Result<Views, StepError>)
  {
    var spefs :- ViewBase(spefState, SpefFormat);
    CollectSpefs(spefs, RcxCorners(rulesets), RcxResults(rulesets, techLefsOf, toolOk, stepDir, design))
  }

  /** A corner's extraction runs: it has a ruleset and a matching technology LEF. */
  predicate Extracted(entry: (string, Option<string>), techLefsOf: string -> seq<string>) {
    entry.1.Some? && |techLefsOf(entry.0)| >= 1
  }

  /** A corner fails exactly when it is extracted and its run fails, and produces a SPEF exactly when its run succeeds. */
  lemma RcxCornerOutcome(rulesets: seq<(string, Option<string>)>, techLefsOf: string -> seq<string>,
                         toolOk: string -> bool, stepDir: string, design: string, i: nat)
    requires i < |rulesets|
    ensures var r := RcxResults(rulesets, techLefsOf, toolOk, stepDir, design)[i];
      && (r.Failure? <==> Extracted(rulesets[i], techLefsOf) && !toolOk(rulesets[i].0))
      && (Produced(r) <==> Extracted(rulesets[i], techLefsOf) && toolOk(rulesets[i].0))
  {
  }

  /**
    A malformed SPEF value fails the step whatever the corners do; otherwise
    the step fails exactly when an extracted corner's run fails, and on
    success the entries added are exactly the extracted corners.
  */
  lemma RcxResult(rulesets: seq<(string, Option<string>)>, spefState: Value, techLefsOf: string -> seq<string>,
                  toolOk: string -> bool, stepDir: string, design: string)
    ensures var r := Rcx(rulesets, spefState, techLefsOf, toolOk, stepDir, design);
      && (ViewBase(spefState, SpefFormat).Failure? ==> r == Failure(MalformedState(SpefFormat)))
      && (ViewBase(spefState, SpefFormat).Success? ==>
            && (r.Success? <==> forall i :: 0 <= i < |rulesets| && Extracted(rulesets[i], techLefsOf) ==> toolOk(rulesets[i].0))
            && (r.Success? ==>
                  r.value.Keys == ViewBase(spefState, SpefFormat).value.Keys
                    + (set i | 0 <= i < |rulesets| && Extracted(rulesets[i], techLefsOf) :: rulesets[i].0)))
  {
    var corners := RcxCorners(rulesets);
    var results := RcxResults(rulesets, techLefsOf, toolOk, stepDir, design);
    var base := ViewBase(spefState, SpefFormat);
    if base.Success? {
      CollectSpefsEntries(base.value, corners, results);
      forall i | 0 <= i < |rulesets|
        ensures results[i].Failure? <==> Extracted(rulesets[i], techLefsOf) && !toolOk(rulesets[i].0)
        ensures Produced(results[i]) <==> Extracted(rulesets[i], techLefsOf) && toolOk(rulesets[i].0)
      {
        RcxCornerOutcome(rulesets, techLefsOf, toolOk, stepDir, design, i);
      }
      if Rcx(rulesets, spefState, techLefsOf, toolOk, stepDir, design).Success? {
        var produced := set i | 0 <= i < |corners| && Produced(results[i]) :: corners[i];
        var extracted := set i | 0 <= i < |rulesets| && Extracted(rulesets[i], techLefsOf) :: rulesets[i].0;
        assert produced == extracted;
      }
    }
  }
}
