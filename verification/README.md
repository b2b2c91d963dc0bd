# OpenLane 2 decision logic, modelled in Dafny

This project models the pure decision logic of OpenLane 2. That logic sits
between the configuration surface and the OpenROAD tool runs:

- **Track specs.** The transpiler turns legacy `tracks.info` track specifications
  into OpenROAD `make_tracks` directives (`old_to_new_tracks`).
- **Configuration loading.** `Config.__process_variable_list` runs the two legacy
  migrations (`DIODE_INSERTION_STRATEGY`, `EXTRA_SPEFS`). It then compiles each
  declared variable and classifies the keys nobody consumed. Around it sit
  `copy_filtered`, the layering of `with_increment`, the `NAME=VALUE` overrides and
  the split into permissive and strict variables by meta version in `__load_dict`.
- **Step rules of the OpenROAD steps.**
  - `pdn_macro_migrator` and the ×100 `PL_TARGET_DENSITY` migration.
  - The `Infinity` sentinels of `or_metrics_out.json`.
  - The dynamic target density.
  - The skip rules of IO placement, global placement and CTS.
  - The resizer's de-duplication of corners by liberty set.
  - The antenna-net extraction.
- **Metric aggregation.** `timing_metric_aggregation` is the per-metric reduction
  policy across corners.
- **Multi-corner steps.** The thread pools of `STAPostPNR` and `RCX` become the
  order they are joined in. The model covers the SPEF selection, the first-failure
  join, later corners winning metric collisions, and the merge of written files into
  the LIB/SDF/SPEF view dictionaries.
- **Variable tables.** `openlane/steps/common_variables.py` is modelled as constant
  tables of `Variable` records, with facts proved about them: unique names, exact
  extensions, deprecated aliases and defaults.

Dynamic Python values are one datatype, `Values.Value`. `Decimal` arithmetic is
exact `real` arithmetic. Metric values with infinities are an extended-real
datatype, `Metrics.ExtReal`. Code this model cannot see becomes a function
parameter:

- `Variable.compile`;
- `preprocess_dict`;
- `Meta(**…)`;
- `toolbox.filter_views`;
- `get_timing_files`;
- each corner's tool run.

A Python exception that nothing catches becomes a `Failure` result.

Modules, one per file: `Wrappers`, `Strings`, `Values`, `Seqs`, `Metrics`,
`Aggregation`, `Tracks`, `TracksExample`, `Variables`, `CommonVariables`,
`ConfigProcess`, `ConfigLoad`, `StepRules`, `Corners`.

## Model

| member | source | states |
|---|---|---|
| Tracks.ParseRecords | openlane/steps/openroad.py:109-112 | the record lines parse exactly when every non-blank line has four fields; otherwise the error names the first bad line |
| Tracks.ParsedRecordsAreNonBlankLines | openlane/steps/openroad.py:109-112 | blank lines are skipped: the records are the non-blank lines, in order, with their four fields verbatim |
| Tracks.ParseTrailingBlank | openlane/steps/openroad.py:110-111 | a trailing whitespace-only line changes nothing |
| Tracks.LeadingBlankLine | openlane/steps/openroad.py:110-111 | a leading whitespace-only line does not change the transpiled output |
| Tracks.CollectWellFormed | openlane/steps/openroad.py:113-114 | the layer table keeps one entry per layer in first-seen order, and every ordered layer has a track map |
| Tracks.CollectOrder | openlane/steps/openroad.py:113-114 | the layer order is the records' layer names de-duplicated in first-seen order |
| Tracks.CollectOrderLast | openlane/steps/openroad.py:113-114 | a record puts its layer last in the order exactly when no earlier record named that layer |
| Tracks.CollectHasTrack | openlane/steps/openroad.py:113-114 | a (layer, axis) has a track exactly when some record names that layer and axis |
| Tracks.CollectLastTrack | openlane/steps/openroad.py:113-114 | a (layer, axis) keeps the offset and pitch of its last record: later records overwrite earlier ones |
| Tracks.Render | openlane/steps/openroad.py:116-122 | rendering succeeds exactly when every layer has both an X and a Y track; otherwise it fails on the first layer lacking X, or else lacking Y |
| Tracks.RenderSpecs | openlane/steps/openroad.py:116-122 | layers with both axes render to one newline-terminated `make_tracks` directive each, in layer order |
| Tracks.ParseFields | openlane/steps/openroad.py:109-112 | records written as their four fields parse back to the same records |
| Tracks.LegacyFieldLines | openlane/steps/openroad.py:108-111 | the legacy text of X/Y record pairs splits back into exactly those records' fields, plus the final empty line |
| Tracks.CollectSpecs | openlane/steps/openroad.py:113-114 | X/Y record pairs for distinct layers collect into those layers, in order, with exactly their two tracks |
| Tracks.TranspileParsed | openlane/steps/openroad.py:102-122 | any text parsing to X/Y record pairs for distinct layers transpiles to one directive per layer in first-seen order, tokens copied verbatim |
| Tracks.TranspileLegacy | openlane/steps/openroad.py:102-122 | writing layer specs in the legacy format and transpiling gives their directives: the legacy format round-trips into `make_tracks` |
| TracksExample.ExampleIsClean | openlane/steps/openroad.py:66-79 | every token of the doctest input is non-empty and free of whitespace |
| TracksExample.ExampleDirectives | openlane/steps/openroad.py:104-105 | the six example layers render to the six directives the doctest lists |
| TracksExample.Doctest | openlane/steps/openroad.py:102-105 | the doctest holds: transpiling the example input yields exactly the documented six-line output |
| Variables.PdnMacroMigratorPieces | openlane/steps/openroad.py:125-131 | a string becomes a list with one element per comma-separated piece (commas + 1 elements), each piece stripped |
| Variables.PdnMacroMigratorKeepsNonStrings | openlane/steps/openroad.py:125-126 | a value that is not a string is returned unchanged |
| Variables.PdnMacroMigratorRoundTrip | openlane/steps/openroad.py:127-131 | when no piece has surrounding whitespace, joining the list with commas restores the input string |
| Variables.PercentMigrationScales | openlane/steps/openroad.py:882-884 | the `Decimal(d) * 100` migration scales every integer, decimal and boolean by 100, so dividing by 100 restores a decimal; infinities stay infinite; it fails for None, lists and dictionaries |
| Variables.PercentMigrationOfText | openlane/steps/openroad.py:882-884 | a string migrates as `Decimal()` reads it: a finite number is scaled by 100, an infinity stays infinite, and the migration fails exactly for the strings `Decimal()` rejects |
| Variables.PercentMigrationOfExponent | openlane/steps/openroad.py:882-884 | a legacy density written with a negative exponent, such as `"1e-1"`, migrates to that number times 100 |
| Values.ParseDecimalOfInteger | openlane/steps/openroad.py:883 | every string `int()` accepts is read by `Decimal()` as the same number |
| Values.ParseDecimalExponent | openlane/steps/openroad.py:883 | `Decimal()` reads a numeral with a negative exponent, such as `1e-1`, as the numeral divided by that power of ten |
| Values.ParseDecimalInfinity | openlane/steps/openroad.py:883 | `Decimal()` reads `inf` and `Infinity`, in any letter case, as positive infinity |
| Values.ParseDecimalPositiveInfinity | openlane/steps/openroad.py:883 | `Decimal()` reads `+inf` and `+Infinity`, in any letter case, as positive infinity |
| Values.ParseDecimalNegativeInfinity | openlane/steps/openroad.py:883 | `Decimal()` reads `-inf` and `-Infinity`, in any letter case, as negative infinity |
| Variables.FindsDeclared | openlane/steps/common_variables.py:19-352 | in a table with distinct names, looking a variable up by its name finds that variable |
| StepRules.LegacyDensityIsPercent | openlane/steps/openroad.py:876-884 | `PL_TARGET_DENSITY_PCT` has one alias, `PL_TARGET_DENSITY`, whose migration turns a fraction into the same density in percent |
| StepRules.DynamicDensity | openlane/steps/openroad.py:919-924 | the dynamic density is `FP_CORE_UTIL + 5·GPL_CELL_PADDING + 10` capped at 100, and never exceeds 100 |
| StepRules.DynamicDensityMonotone | openlane/steps/openroad.py:920-923 | the dynamic density never decreases as utilisation or padding grows |
| StepRules.PlacementDensity | openlane/steps/openroad.py:917-962 | a set density leaves the environment alone; an unset one adds only the density key, at most 100. The skip-IO variant skips exactly for `random_equidistant`, otherwise also sets `__PL_SKIP_IO` to "1" and keeps the same density |
| StepRules.IoPlacement | openlane/steps/openroad.py:786-792 | IO placement is skipped exactly when `FP_PIN_ORDER_CFG` is set, and otherwise runs with the environment unchanged |
| StepRules.Texts | openlane/steps/openroad.py:1516-1517 | a list converts to strings exactly when all its items are strings, item for item |
| StepRules.CtsClockNet | openlane/steps/openroad.py:1512-1530 | CTS runs unchanged when `CLOCK_NET` is set. Otherwise it falls back to a truthy `CLOCK_PORT`: a list is joined with spaces and splits back into the ports, anything else is copied. With neither it skips; a list holding a non-string fails |
| StepRules.ResizerCorners | openlane/steps/openroad.py:1436-1447 | one `RSZ_CORNER_k` entry per distinct liberty set, in first-seen order, each from the first corner that brings its set; at most as many entries as corners |
| StepRules.ResizerCornersCover | openlane/steps/openroad.py:1436-1447 | no two entries share a liberty set, and every corner's set has an entry |
| StepRules.MatchNet | openlane/steps/openroad.py:1295 | a match of `Net:\s*(\w+)` captures a non-empty word |
| StepRules.MatchNetFinds | openlane/steps/openroad.py:1295-1303 | a line starting `Net:`, then whitespace, then a word not followed by a word character, captures exactly that word |
| StepRules.CapturesCount | openlane/steps/openroad.py:1298-1305 | the captured nets are as many as the lines on which the pattern matches |
| StepRules.AntennaNetsCount | openlane/steps/openroad.py:1294-1307 | the returned count is the number of matching report lines, and the output holds exactly the captured nets, one per line |
| StepRules.NetLinesRoundTrip | openlane/steps/openroad.py:1304 | nets written one per line split back into the same nets |
| Metrics.ExtRealRoundTrip | openlane/steps/openroad.py:272-275 | an extended real stored as a metric value reads back as itself |
| Metrics.SentinelRoundTrip | openlane/steps/openroad.py:271-274 | rewriting the `"Infinity"`/`"-Infinity"` sentinels and writing them back are inverse on JSON values; apart from the sentinel strings, a metric written and read back is unchanged |
| Metrics.ReadToolMetrics | openlane/steps/openroad.py:270-274 | the keys are unchanged; `"Infinity"` becomes +∞ and `"-Infinity"` becomes −∞; every other value is unchanged |
| Metrics.WriteMetrics | openlane/steps/openroad.py:271-274 | the written metrics keep their keys and hold no float infinity |
| Metrics.ToolMetricsRoundTrip | openlane/steps/openroad.py:270-274 | reading a tool's JSON metrics and writing them back gives the file's values |
| Metrics.MergeToolMetrics | openlane/steps/openroad.py:267-275 | with no metrics file the step's metrics are unchanged; otherwise the file's rewritten values overwrite same-named keys and every other key is kept |
| Aggregation.Reduce | openlane/steps/openroad.py:81-99 | min and max return an extreme found among the identity and the values. A sum involving both infinities has no value; otherwise it is infinite exactly when an infinity occurs, and is the finite sum when none does |
| Aggregation.RuleFor | openlane/steps/openroad.py:81-99 | a lookup returns a rule for that metric, or none exactly when the policy has no rule for it |
| Aggregation.AggregateValues | openlane/steps/openroad.py:81-99 | values aggregate only when all are numeric; a min never exceeds its identity and a max is never below it |
| Aggregation.AggregateValuesReduces | openlane/steps/openroad.py:81-99 | when every corner value is numeric, the aggregate is the rule's reduction of those values in order, starting from its identity; one non-numeric value makes it fail |
| Aggregation.ReduceSnoc | openlane/steps/openroad.py:81-99 | reducing one more value combines it with the reduction of the others |
| Aggregation.AggregationPolicy | openlane/steps/openroad.py:81-99 | violation counts and TNS sum from 0, clock skews take the max from −∞, worst slacks and WNS take the min from +∞, and unannotated-net counts take the max from 0, each in both directions |
| Aggregation.PolicyMetricsDistinct | openlane/steps/openroad.py:81-99 | no metric has two rules in the policy |
| Aggregation.RuleForFindsRule | openlane/steps/openroad.py:81-99 | in a policy with distinct metrics, looking up a rule's metric finds that rule |
| Aggregation.PolicyCoversEachMetricOnce | openlane/steps/openroad.py:81-99 | each metric of the policy is found with its own rule |
| Aggregation.IdentityIsNeutral | openlane/steps/openroad.py:81-99 | each rule's identity leaves a value unchanged when combined with it (a non-negative count, for the unannotated-net max from 0) |
| Aggregation.CornerKeyInjective | openlane/steps/openroad.py:598 | `metric__corner:<corner>` names of one metric differ for different corners |
| CommonVariables.PdnNamesUnique | openlane/steps/common_variables.py:62-240 | the PDN variables have pairwise distinct names |
| CommonVariables.IoNamesUnique | openlane/steps/common_variables.py:19-60 | the IO-layer variables have pairwise distinct names |
| CommonVariables.RoutingNamesUnique | openlane/steps/common_variables.py:242-265 | the routing-layer variables have pairwise distinct names |
| CommonVariables.DplNamesUnique | openlane/steps/common_variables.py:268-289 | the detailed-placement variables have pairwise distinct names |
| CommonVariables.GrtNamesUnique | openlane/steps/common_variables.py:291-325 | the global-routing variables have pairwise distinct names |
| CommonVariables.RszNamesUnique | openlane/steps/common_variables.py:327-352 | the resizer variables have pairwise distinct names |
| CommonVariables.IoNotShadowed | openlane/steps/common_variables.py:19-60 | no deprecated name is the name of an IO-layer variable |
| CommonVariables.GrtNotShadowed | openlane/steps/common_variables.py:291-325 | no deprecated name is the name of a global-routing variable |
| CommonVariables.RszNotShadowed | openlane/steps/common_variables.py:327-352 | no deprecated name is the name of a resizer variable |
| CommonVariables.IoDefaultsComplete | openlane/steps/common_variables.py:19-60 | each IO-layer variable resolves, and it leaves its default unset exactly when the PDK supplies it or its type admits None |
| CommonVariables.PdnDefaultsComplete | openlane/steps/common_variables.py:62-240 | each PDN variable resolves, and it leaves its default unset exactly when the PDK supplies it or its type admits None |
| CommonVariables.GrtDefaultsComplete | openlane/steps/common_variables.py:291-325 | each global-routing variable resolves, and it leaves its default unset exactly when the PDK supplies it or its type admits None |
| CommonVariables.RszDefaultsComplete | openlane/steps/common_variables.py:327-352 | each resizer variable resolves, and it leaves its default unset exactly when the PDK supplies it or its type admits None |
| CommonVariables.GrtExtendsRouting | openlane/steps/common_variables.py:291-325 | `grt_variables` is the routing-layer variables followed by exactly `DIODE_PADDING`, `GRT_ALLOW_CONGESTION`, `GRT_ANTENNA_ITERS`, `GRT_OVERFLOW_ITERS`, `GRT_ANTENNA_MARGIN` |
| CommonVariables.RszExtendsDpl | openlane/steps/common_variables.py:327-352 | `rsz_variables` is the placement variables followed by exactly `RSZ_DONT_TOUCH_RX`, `RSZ_DONT_TOUCH_LIST`, `RSZ_DONT_USE_CELLS`, `RSZ_CORNERS` |
| CommonVariables.IoDeprecations | openlane/steps/common_variables.py:19-60 | the IO-layer variables declare no deprecated name |
| CommonVariables.PdnDeprecations | openlane/steps/common_variables.py:216-237 | the PDN deprecated names are exactly the three rail/upper/lower layer renamings |
| CommonVariables.GrtDeprecations | openlane/steps/common_variables.py:309-323 | the routing deprecated names are exactly `GRT_ANT_ITERS` and `GRT_ANT_MARGIN`, for their successors |
| CommonVariables.RszDeprecations | openlane/steps/common_variables.py:333-345 | the resizer deprecated names are exactly `UNBUFFER_NETS` and `DONT_USE_CELLS`, for their successors |
| CommonVariables.RenamingsArePlain | openlane/steps/common_variables.py:216-345 | every deprecated name is a plain rename with no value migration |
| CommonVariables.RenamingsUnique | openlane/steps/common_variables.py:216-345 | each deprecated name maps to exactly one canonical name |
| CommonVariables.PdnNotShadowed | openlane/steps/common_variables.py:62-240 | no deprecated name is the name of a PDN variable |
| CommonVariables.GrtDefaults | openlane/steps/common_variables.py:305-323 | `GRT_ANTENNA_ITERS` defaults to 3, `GRT_OVERFLOW_ITERS` to 50 and `GRT_ANTENNA_MARGIN` to 10 |
| CommonVariables.RszDefaults | openlane/steps/common_variables.py:276-332 | `PL_MAX_DISPLACEMENT_X` defaults to 500, `PL_MAX_DISPLACEMENT_Y` to 100 and `RSZ_DONT_TOUCH_RX` to `"$^"` |
| ConfigProcess.MigrateDiodeRemoves | openlane/config/config.py:844-869 | a strategy that is absent or None changes nothing. Otherwise the key is always removed and the other keys are kept; the step crashes exactly when `int()` raises something other than ValueError |
| ConfigProcess.MigrateDiodeAvailable | openlane/config/config.py:857-869 | an available strategy warns once and sets `GRT_REPAIR_ANTENNAS` iff it is 3 or 6, `RUN_HEURISTIC_DIODE_INSERTION` iff it is 4 or 6, and `DIODE_ON_PORTS` to "in" iff it is 4 or 6, else "none" |
| ConfigProcess.MigrateDiodeUnavailable | openlane/config/config.py:849-856 | a non-integer, 1, 2, 5 or a value above 6 appends exactly one error, adds no warning, and only removes the key |
| ConfigProcess.MigrateDiodeIdempotent | openlane/config/config.py:844-869 | migrating twice is migrating once |
| ConfigProcess.SpaceSeparated | openlane/config/config.py:877-878 | `split(" ")` gives one piece per space plus one, empty pieces included |
| ConfigProcess.MigrateExtraSpefs | openlane/config/config.py:871-915 | without `EXTRA_SPEFS` nothing changes, and with `MACROS` too it is an error. Otherwise `EXTRA_SPEFS` is replaced by `MACROS`: a space-separated string is split, a non-list or a length not divisible by 4 is an error with empty macros, and else it warns and builds one macro per quadruple |
| ConfigProcess.MacrosOfKeys | openlane/config/config.py:892-909 | the macros are keyed by exactly the module field of each quadruple |
| ConfigProcess.MacrosOfLast | openlane/config/config.py:892-909 | a module keeps the macro of its last quadruple |
| ConfigProcess.MacroViews | openlane/config/config.py:900-908 | a migrated macro has exactly the `gds`, `lef` and `spef` views, and its `spef` map has exactly the keys `min_*`, `nom_*`, `max_*` |
| ConfigProcess.ExtraSpefsMacros | openlane/config/config.py:892-909 | for a list of quadruples, the `MACROS` keys are the modules and each module holds the macro of its last quadruple |
| ConfigProcess.MigrateExtraSpefsIdempotent | openlane/config/config.py:871-909 | migrating twice is migrating once |
| ConfigProcess.CompileOneEffect | openlane/config/config.py:917-931 | a compiled variable enters `final` and its consumed alias key leaves `mutable`; a compile error is appended and the variable gets no entry; deleting an alias key that is already gone crashes |
| ConfigProcess.CompileAllLoop | openlane/config/config.py:917-947 | after the loop, no variable's name and no consumed key remains in `mutable`, every variable without an error is in `final`, and `final` names only loop variables |
| ConfigProcess.ClassifyKey | openlane/config/config.py:952-974 | a leftover key yields at most one diagnostic, about that key, and the only error it can yield is "unknown key" |
| ConfigProcess.Classify | openlane/config/config.py:949-974 | the leftover keys give at most one diagnostic each, about keys among them; errors are only unknown-key errors |
| ConfigProcess.ClassifyRemoved | openlane/config/config.py:952-955 | a "has been removed" warning is given exactly for the non-special removed keys, with the reason the removed table gives |
| ConfigProcess.ClassifyUnused | openlane/config/config.py:956-972 | an "unused" warning is given exactly for reportable known keys: not special, not removed, no `_OPT`, no `//` or `#` prefix, and a policy other than None |
| ConfigProcess.ClassifyUnknown | openlane/config/config.py:956-974 | an unknown key is an error exactly in "error" mode and a warning exactly in "warn" mode; in None mode nothing is reported |
| ConfigProcess.ClassifyOrdered | openlane/config/config.py:949 | keys visited in sorted order give warnings and errors in sorted key order |
| ConfigProcess.CompileStagesResult | openlane/config/config.py:917-947 | after both compile stages, `final` names only declared variables and holds all of them when there is no error; no declared name is left over; no unknown-key error is raised yet |
| ConfigProcess.ProcessReports | openlane/config/config.py:814-976 | a processed configuration holds only declared variables, all of them when there is no error; an unknown-key error only arises in "error" mode for a reportable key that is neither known nor declared |
| ConfigLoad.CopyFilteredKeys | openlane/config/config.py:185-194 | the copy has exactly the names of the given variables, plus the flow variables when the flag is set, with the original values; a missing name fails (KeyError) |
| ConfigLoad.CopyFilteredIdempotent | openlane/config/config.py:185-194 | filtering a filtered copy again gives the same copy |
| ConfigLoad.LayerPrecedence | openlane/config/config.py:221-229 | the other inputs win over the configuration, which wins over the PDK values; no key is lost or invented |
| ConfigLoad.WithIncrementResult | openlane/config/config.py:196-252 | the incremental configuration holds exactly the given variables; processing errors raise `InvalidConfig`, which never contains unknown-key errors, because unknown keys are not reported |
| ConfigLoad.ParseOverride | openlane/config/config.py:533 | an override splits at its first `=`, so the value may contain `=`; one without `=` fails |
| ConfigLoad.ParseOverrideJoin | openlane/config/config.py:533 | `KEY=VALUE` with an `=`-free key parses back to that key and value |
| ConfigLoad.ParseOverrides | openlane/config/config.py:532-533 | all overrides parse exactly when each contains `=`; otherwise the first one without it fails |
| ConfigLoad.OverriddenKeys | openlane/config/config.py:531-535 | the overridden keys are exactly the keys the overrides name |
| ConfigLoad.OverridesKeepOthers | openlane/config/config.py:531-535 | keys that no override names keep their values, and no other key appears |
| ConfigLoad.OverridesLastWins | openlane/config/config.py:531-535 | the last override of a key sets its value as a string |
| ConfigLoad.ByOverride | openlane/config/config.py:590-595 | the selection keeps exactly the variables whose name is (or is not) overridden |
| ConfigLoad.ByOverrideSplits | openlane/config/config.py:590-595 | the overridden and other variables together are exactly the flow variables |
| ConfigLoad.PartitionSplits | openlane/config/config.py:586-596 | from meta version 2 on, overridden variables are permissive, all others strict, and unknown keys are errors; before it, all are permissive and unknown keys warn |
| ConfigLoad.ByOverrideNames | openlane/config/config.py:590-595 | the two groups together declare exactly the flow variables' names |
| ConfigLoad.ValidateLoadedResult | openlane/config/config.py:586-609 | a loaded configuration holds exactly the flow variables, and an unknown-key error in `InvalidConfig` only arises from meta version 2 on |
| ConfigLoad.LoadDictResult | openlane/config/config.py:507-618 | a loaded dictionary yields exactly the flow variables and its meta version; unknown-key errors only arise when the meta version is at least 2 |
| Corners.JoinFirstFailure | openlane/steps/openroad.py:552-561 | the join fails exactly when some corner fails, and then with the error of the first failing corner in declared order |
| Corners.JoinLaterWins | openlane/steps/openroad.py:560-561 | a successful join has exactly the keys of the corners' metrics, and each key holds the value of the last corner that reports it |
| Corners.CornerResultsOnce | openlane/steps/openroad.py:552-561 | each declared corner contributes exactly one result, no corner twice, in the order corners are first declared, because the futures dictionary is keyed by corner |
| Corners.AddCornersEntries | openlane/steps/openroad.py:627-647 | a view dictionary keeps its entries, gains one per corner, and each corner's entry is its own file |
| Corners.StaCornerOutcome | openlane/steps/openroad.py:496-548 | a corner fails for the SPEF state exactly when it is no dictionary, with `NoSpefForCorner` exactly when no SPEF is compatible with the corner, and for the tool exactly when the run with the first compatible SPEF fails; otherwise it reports that run's metrics |
| Corners.StaPostPnrOutcome | openlane/steps/openroad.py:552-650 | the step fails exactly when some distinct corner fails or a LIB/SDF value is malformed; a corner failure wins, the first failing corner in declared order; on success the metrics are the aggregate of the join in which later corners win, and the views are the merged dictionaries |
| Corners.StaViewsResult | openlane/steps/openroad.py:620-649 | LIB is checked before SDF and each failure names its own format; on success both dictionaries keep their entries and gain `<step_dir>/<corner>/<design>__<corner>.lib` and `.sdf` per corner |
| Corners.StaViewsAsWrittenBlamesLib | openlane/steps/openroad.py:636-640 | as written, a well-formed LIB state with a malformed SDF state is reported as a malformed LIB value, where the corrected check reports SDF |
| Corners.CollectSpefsEntries | openlane/steps/openroad.py:1278-1288 | the SPEF dictionary keeps its entries and gains exactly the corners whose extraction produced a file; the first failing corner's error propagates |
| Corners.CollectSpefsFails | openlane/steps/openroad.py:1278-1288 | collecting the SPEFs fails exactly when some corner's extraction fails, and then with the first failing corner's error |
| Corners.CollectSpefsKeys | openlane/steps/openroad.py:1278-1288 | a successful collection gains exactly the corners that produced a file and keeps every other entry unchanged |
| Corners.CollectSpefsLast | openlane/steps/openroad.py:1284-1286 | a corner's entry is the file of its last producing run |
| Corners.RcxCornerOutcome | openlane/steps/openroad.py:1213-1266 | a corner without a ruleset or a tech LEF produces nothing; an extracted corner fails exactly when its tool run fails and otherwise produces a SPEF |
| Corners.RcxResult | openlane/steps/openroad.py:1268-1290 | a non-dictionary SPEF state is an error; otherwise extraction succeeds exactly when every extracted corner's run succeeds, and the SPEF keys grow by exactly the extracted corners |
| Seqs.Dedupe | openlane/steps/openroad.py:1436-1447 | de-duplication keeps each element exactly once and drops nothing |
| Seqs.DedupeFirstSeenOrder | openlane/steps/openroad.py:113-114 | de-duplication keeps first occurrences in their original order |
| Strings.JoinSplit | openlane/steps/openroad.py:127-128 | splitting at a character and joining back with it restores the string |
| Strings.SplitJoin | openlane/steps/openroad.py:1517 | joining pieces that avoid the separator and splitting again gives the pieces |
| Strings.BlankIffNoWords | openlane/steps/openroad.py:110-111 | a line strips to empty exactly when `split()` finds no fields |
| Strings.StripIdempotent | openlane/steps/openroad.py:128-131 | stripping is idempotent |
| Strings.SplitOnceJoin | openlane/config/config.py:533 | `split("=", 1)` of `key=value`, with an `=`-free key, gives back key and value |
| Strings.SortedKeys | openlane/config/config.py:949 | `sorted(keys)` lists each key once, in strictly increasing order |
| Values.ParseIntToString | openlane/config/config.py:850 | `int()` of an integer's decimal text gives that integer back |
| Values.ParseIntOfDigits | openlane/config/config.py:850 | `int()` reads a string of decimal digits as the number they denote |
| Values.ParseIntOfNegative | openlane/config/config.py:850 | `int()` reads a minus sign followed by decimal digits as the negated number |
| Values.PyInt | openlane/config/config.py:850 | `int()` keeps an integer and converts a string exactly when it is an integer literal; None and containers (TypeError) and infinities (OverflowError) are unconvertible |

## Left out

- openlane/__main__.py is not part of this model. It is command-line wiring, Docker invocation and exit codes, all I/O.
- File and subprocess I/O is not modelled, and neither is logging. This covers:
  - reading `or_metrics_out.json`, `run_subprocess`, `get_command`, `prepare_env`;
  - `mkdirp`, the `rich` tables and the `warn`/`info` messages.
  Each tool run is a function parameter.
- The thread pool (`get_tpe`, futures) is not modelled. It is replaced by the order its results are joined in.
- `aggregate_metrics` is not part of this model. Its policy table and a reduction fold are modelled, and in the STA step the aggregation is a parameter.
- `Variable.compile`, `preprocess_dict`, `Meta(**meta_raw)`, `toolbox.filter_views` and `get_timing_files` are parameters; their internals are not modelled.
- PDK loading (`__get_pdk_config`, Tcl evaluation, `volare`, globbing) is not modelled. It is a parameter map of PDK values.
- Strings.Split: `str.splitlines()` is modelled as splitting at its line-break characters. `\r\n` therefore counts as two breaks, which adds a blank line that the transpiler skips.
- StepRules.MatchNet: `\w` is modelled as ASCII letters, digits and `_`. Python's Unicode word characters are not modelled. The contract states soundness; StepRules.MatchNetFinds states completeness for the `Net:` prefix form.
- Values.ParseInt: only ASCII digits and the underscore rule of Python literals are modelled. Other Unicode decimal digits are not.
- Variables.PercentMigrationScales: `Decimal("NaN")` and `Decimal("sNaN")` succeed in Python, but a value has no NaN, so the model's migration fails for them. Underscores in a `Decimal` string follow the rule of Python integer literals.
- StepRules.AntennaNetsCount: the report is split into lines at `\n` and `\r`, as reading a file in universal-newline mode does. A `\r\n` pair gives an extra empty line, which names no net and so changes nothing.
- Diagnostics are a datatype rather than formatted message strings. The exact wording of warnings and errors is not modelled.
- The `f"{expr}"` text of the dynamic density, the `shlex.join` text of `RSZ_CORNER_k`, and `Path` objects are modelled as values: a `real`, a corner with its liberty list, and the path string. Paths are joined with "/" in place of `os.path.join`.
- `CURRENT_SPEF_BY_CORNER`, `CURRENT_CORNER_TIMING_VIEWS` and the other per-corner environment keys that only feed the tool are not modelled.
- `STAPrePNR`'s glob collection of SDF files and its unannotated-net filtering are not modelled; both read files.
- `format_slack` (float rounding) and IR-drop report parsing are not modelled; both are floating point.
- `with_increment` and `__load_dict` mutate dictionaries in place. The model returns new maps instead.
- ConfigLoad.CopyFilteredKeys: the failure carries the set of all missing names. Python raises a `KeyError` for whichever missing name the set iteration reaches first, and the model does not say which one that is.
- `MACROS` entries from `EXTRA_SPEFS` use a placeholder path for `gds`/`lef`, standing for `Path._dummy_path`.
- ConfigProcess.MacrosOfKeys: Python keys `MACROS` by the module value itself. The model keys it by a string: the `str()` text for integers, booleans and None, and the empty string for decimals and containers.
- CTS's skip path calls the base `Step.run`, which returns the state unaltered. It is modelled as a skip.
- `Variable.compile` receives the values compiled so far and returns the warnings it appends. What it computes from them is not modelled.

## Findings

| source | as written | input that shows it | evidently intended | confidence | as-written member | corrected member |
|---|---|---|---|---|---|---|
| openlane/steps/openroad.py:636-640 | `STAPostPNR.run` checks the SDF view dictionary, but its error message says "value for LIB is not a dictionary" | LIB state None, SDF state the integer 1: LIB passes as `{}`, and the SDF check raises an exception blaming LIB | the SDF check names SDF, as the SPEF check at :496-499 names SPEF | medium, not executed | Corners.StaViewsAsWritten (shown by Corners.StaViewsAsWrittenBlamesLib) | Corners.StaViews (proved by Corners.StaViewsResult) |
