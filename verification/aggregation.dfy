/**
  The cross-corner reduction policy for timing metrics
  (`timing_metric_aggregation`, openlane/steps/openroad.py) and the fold that
  reduces per-corner values starting from a rule's identity.  Per-corner
  metrics are named `<metric>__corner:<corner>`.
*/
module Aggregation {
  import opened Wrappers
  import opened Values
  import opened Metrics

  datatype Reduction = Sum | Max | Min

  /** How the per-corner values of one metric reduce to the overall value. */
  datatype Rule = Rule(metric: string, identity: ExtReal, reduction: Reduction)

  const TimingMetricAggregation: seq<Rule> := [
    Rule("timing__hold_vio__count", Fin(0.0), Sum),
    Rule("timing__hold_r2r_vio__count", Fin(0.0), Sum),
    Rule("timing__setup_vio__count", Fin(0.0), Sum),
    Rule("timing__setup_r2r_vio__count", Fin(0.0), Sum),
    Rule("design__max_slew_violation__count", Fin(0.0), Sum),
    Rule("design__max_fanout_violation__count", Fin(0.0), Sum),
    Rule("design__max_cap_violation__count", Fin(0.0), Sum),
    Rule("clock__skew__worst_hold", NegInf, Max),
    Rule("clock__skew__worst_setup", NegInf, Max),
    Rule("timing__hold__ws", PosInf, Min),
    Rule("timing__setup__ws", PosInf, Min),
    Rule("timing__hold__wns", PosInf, Min),
    Rule("timing__setup__wns", PosInf, Min),
    Rule("timing__hold__tns", Fin(0.0), Sum),
    Rule("timing__setup__tns", Fin(0.0), Sum),
    Rule("timing__unannotated_nets__count", Fin(0.0), Max),
    Rule("timing__unannotated_nets_filtered__count", Fin(0.0), Max)
  ]

  /** The order on extended reals. */
  predicate AtMost(a: ExtReal, b: ExtReal) {
    match (a, b)
    case (NegInf, _) => true
    case (_, PosInf) => true
    case (Fin(x), Fin(y)) => x <= y
    case _ => false
  }

  /** Extended-real addition; None for the undefined sum of opposite infinities. */
  function Add(a: ExtReal, b: ExtReal): Option<ExtReal> {
    match (a, b)
    case (Fin(x), Fin(y)) => Some(Fin(x + y))
    case (PosInf, NegInf) => None
    case (NegInf, PosInf) => None
    case (Fin(_), _) => Some(b)
    case _ => Some(a)
  }

  function Combine(red: Reduction, a: ExtReal, b: ExtReal): Option<ExtReal> {
    match red
    case Sum => Add(a, b)
    case Max => Some(if AtMost(a, b) then b else a)
    case Min => Some(if AtMost(a, b) then a else b)
  }

  /** `acc` or one of `xs`. */
  predicate Among(x: ExtReal, acc: ExtReal, xs: seq<ExtReal>) {
    x == acc || x in xs
  }

  predicate AllFinite(xs: seq<ExtReal>) {
    forall i :: 0 <= i < |xs| ==> xs[i].Fin?
  }

  function FiniteSum(xs: seq<ExtReal>): real
    requires AllFinite(xs)
  {
    if |xs| == 0 then 0.0 else xs[0].r + FiniteSum(xs[1..])
  }

  /**
    Reduces `xs` from left to right starting at `acc`.  Min and max give the
    least and greatest of `acc` and `xs`; a sum fails exactly when both
    infinities occur, is infinite exactly when an infinity occurs, and is the
    ordinary sum otherwise.
  */
  function Reduce(red: Reduction, acc: ExtReal, xs: seq<ExtReal>): (r: Option<ExtReal>)
    ensures red == Min ==>
      && r.Some? && Among(r.value, acc, xs) && AtMost(r.value, acc)
      && forall i :: 0 <= i < |xs| ==> AtMost(r.value, xs[i])
    ensures red == Max ==>
      && r.Some? && Among(r.value, acc, xs) && AtMost(acc, r.value)
      && forall i :: 0 <= i < |xs| ==> AtMost(xs[i], r.value)
    ensures red == Sum ==> (r.None? <==> Among(PosInf, acc, xs) && Among(NegInf, acc, xs))
    ensures red == Sum && r.Some? ==>
      && (r.value == PosInf <==> Among(PosInf, acc, xs))
      && (r.value == NegInf <==> Among(NegInf, acc, xs))
    ensures red == Sum && acc.Fin? && AllFinite(xs) ==> r == Some(Fin(acc.r + FiniteSum(xs)))
    decreases |xs|
  {
    if |xs| == 0 then Some(acc)
    else
      match Combine(red, acc, xs[0])
      case None => None
      case Some(a) => Reduce(red, a, xs[1..])
  }

  /** The rule for a metric, if the policy names it. */
  function RuleFor(metric: string, rules: seq<Rule>): (r: Option<Rule>)
    ensures r.Some? ==> r.value in rules && r.value.metric == metric
    ensures r.None? ==> forall i :: 0 <= i < |rules| ==> rules[i].metric != metric
  {
    if |rules| == 0 then None
    else if rules[0].metric == metric then Some(rules[0])
    else RuleFor(metric, rules[1..])
  }

  /**
    The overall value of a metric from its per-corner values: each value must
    be numeric, and they are reduced from the rule's identity.
  */
  function AggregateValues(rule: Rule, values: seq<Value>): (r: Option<ExtReal>)
    ensures r.Some? ==> forall i :: 0 <= i < |values| ==> AsExtReal(values[i]).Some?
    ensures rule.reduction == Min && r.Some? ==> AtMost(r.value, rule.identity)
    ensures rule.reduction == Max && r.Some? ==> AtMost(rule.identity, r.value)
    decreases |values|
  {
    if |values| == 0 then Some(rule.identity)
    else
      match AsExtReal(values[|values| - 1])
      case None => None
      case Some(x) =>
        match AggregateValues(rule, values[..|values| - 1])
        case None => None
        case Some(acc) => Combine(rule.reduction, acc, x)
  }

  /** The numbers of `values`, every one of which is numeric. */
  function Numbers(values: seq<Value>): (xs: seq<ExtReal>)
    requires forall i :: 0 <= i < |values| ==> AsExtReal(values[i]).Some?
    ensures |xs| == |values|
  {
    seq(|values|, i requires 0 <= i < |values| => AsExtReal(values[i]).value)
  }

  /** Reducing one more element combines it with the reduction of the others. */
  lemma {:induction false} ReduceSnoc(red: Reduction, acc: ExtReal, xs: seq<ExtReal>, x: ExtReal)
    ensures Reduce(red, acc, xs + [x]) ==
      match Reduce(red, acc, xs)
      case None => None
      case Some(a) => Combine(red, a, x)
    decreases |xs|
  {
    if |xs| == 0 {
      assert [x][1..] == [];
    } else {
      assert (xs + [x])[0] == xs[0] && (xs + [x])[1..] == xs[1..] + [x];
      match Combine(red, acc, xs[0])
      case None =>
      case Some(a) => ReduceSnoc(red, a, xs[1..], x);
    }
  }

  /**
    The per-corner aggregation is the reduction, from the rule's identity,
    of the corner values in order; a single non-numeric value makes it fail.
  */
  lemma {:induction false} AggregateValuesReduces(rule: Rule, values: seq<Value>)
    ensures (forall i :: 0 <= i < |values| ==> AsExtReal(values[i]).Some?) ==>
      AggregateValues(rule, values) == Reduce(rule.reduction, rule.identity, Numbers(values))
    ensures (exists i :: 0 <= i < |values| && AsExtReal(values[i]).None?) ==> AggregateValues(rule, values).None?
    decreases |values|
  {
    if |values| > 0 && forall i :: 0 <= i < |values| ==> AsExtReal(values[i]).Some? {
      var n := |values| - 1;
      var prev := values[..n];
      AggregateValuesReduces(rule, prev);
      var x := AsExtReal(values[n]).value;
      assert Numbers(values) == Numbers(prev) + [x];
      ReduceSnoc(rule.reduction, rule.identity, Numbers(prev), x);
    }
  }

  const SumMetrics: set<string> := {
    "timing__hold_vio__count", "timing__hold_r2r_vio__count",
    "timing__setup_vio__count", "timing__setup_r2r_vio__count",
    "design__max_slew_violation__count", "design__max_fanout_violation__count",
    "design__max_cap_violation__count", "timing__hold__tns", "timing__setup__tns"
  }
  const SkewMetrics: set<string> := {"clock__skew__worst_hold", "clock__skew__worst_setup"}
  const SlackMetrics: set<string> := {
    "timing__hold__ws", "timing__setup__ws", "timing__hold__wns", "timing__setup__wns"
  }
  const UnannotatedMetrics: set<string> := {
    "timing__unannotated_nets__count", "timing__unannotated_nets_filtered__count"
  }

  /**
    The policy: violation counts and total negative slack add up from 0, clock
    skews take the maximum from -inf, worst and worst-negative slacks the
    minimum from +inf, and the two unannotated-net counts the maximum from 0.
  */
  lemma AggregationPolicy(i: nat)
    requires i < |TimingMetricAggregation|
    ensures var rule := TimingMetricAggregation[i];
      && (rule.metric in SumMetrics <==> rule.reduction == Sum)
      && (rule.metric in SumMetrics ==> rule.identity == Fin(0.0))
      && (rule.metric in SkewMetrics <==> rule.reduction == Max && rule.identity == NegInf)
      && (rule.metric in SlackMetrics <==> rule.reduction == Min)
      && (rule.metric in SlackMetrics ==> rule.identity == PosInf)
      && (rule.metric in UnannotatedMetrics <==> rule.reduction == Max && rule.identity == Fin(0.0))
  {
    if i < 7 {
      PolicyViolations(i);
    } else if i < 9 {
      PolicySkews(i);
    } else if i < 13 {
      PolicySlacks(i);
    } else if i < 15 {
      PolicyTotals(i);
    } else {
      PolicyUnannotated(i);
    }
  }

  /** The rule of a metric is the one its class calls for. */
  predicate RuleFitsClass(rule: Rule) {
    && (rule.metric in SumMetrics <==> rule.reduction == Sum)
    && (rule.metric in SumMetrics ==> rule.identity == Fin(0.0))
    && (rule.metric in SkewMetrics <==> rule.reduction == Max && rule.identity == NegInf)
    && (rule.metric in SlackMetrics <==> rule.reduction == Min)
    && (rule.metric in SlackMetrics ==> rule.identity == PosInf)
    && (rule.metric in UnannotatedMetrics <==> rule.reduction == Max && rule.identity == Fin(0.0))
  }

  lemma PolicyViolations(i: nat)
    requires i < 7
    ensures RuleFitsClass(TimingMetricAggregation[i])
  {
  }

  lemma PolicySkews(i: nat)
    requires 7 <= i < 9
    ensures RuleFitsClass(TimingMetricAggregation[i])
  {
  }

  lemma PolicySlacks(i: nat)
    requires 9 <= i < 13
    ensures RuleFitsClass(TimingMetricAggregation[i])
  {
  }

  lemma PolicyTotals(i: nat)
    requires 13 <= i < 15
    ensures RuleFitsClass(TimingMetricAggregation[i])
  {
  }

  lemma PolicyUnannotated(i: nat)
    requires 15 <= i < 17
    ensures RuleFitsClass(TimingMetricAggregation[i])
  {
  }

  /** The metrics of `rules` are pairwise distinct. */
  predicate DistinctMetrics(rules: seq<Rule>) {
    forall i, j :: 0 <= i < j < |rules| ==> rules[i].metric != rules[j].metric
  }

  /** The policy's metrics with index in `[i0, i1)` differ from those later in the table with index in `[j0, j1)`. */
  predicate MetricsApart(i0: nat, i1: nat, j0: nat, j1: nat)
    requires i1 <= |TimingMetricAggregation| && j1 <= |TimingMetricAggregation|
  {
    forall i, j :: i0 <= i < i1 && j0 <= j < j1 && i < j ==>
      TimingMetricAggregation[i].metric != TimingMetricAggregation[j].metric
  }

  lemma MetricsApartLow() ensures MetricsApart(0, 6, 0, 6) {}
  lemma MetricsApartMiddle() ensures MetricsApart(6, 12, 6, 12) {}
  lemma MetricsApartHigh() ensures MetricsApart(12, 17, 12, 17) {}
  lemma MetricsApartLowMiddle() ensures MetricsApart(0, 6, 6, 12) {}
  lemma MetricsApartLowHigh() ensures MetricsApart(0, 6, 12, 17) {}
  lemma MetricsApartMiddleHigh() ensures MetricsApart(6, 12, 12, 17) {}

  /** No metric of the policy has two rules. */
  lemma PolicyMetricsDistinct()
    ensures DistinctMetrics(TimingMetricAggregation)
  {
    MetricsApartLow();
    MetricsApartMiddle();
    MetricsApartHigh();
    MetricsApartLowMiddle();
    MetricsApartLowHigh();
    MetricsApartMiddleHigh();
  }

  /** Among rules for distinct metrics, looking a rule's metric up finds that rule. */
  lemma {:induction false} RuleForFindsRule(rules: seq<Rule>, i: nat)
    requires DistinctMetrics(rules) && i < |rules|
    ensures RuleFor(rules[i].metric, rules) == Some(rules[i])
    decreases i
  {
    if i > 0 {
      assert rules[0].metric != rules[i].metric;
      assert rules[1..][i - 1] == rules[i];
      RuleForFindsRule(rules[1..], i - 1);
    }
  }

  /** Each metric of the policy is aggregated by its own rule. */
  lemma PolicyCoversEachMetricOnce(i: nat)
    requires i < |TimingMetricAggregation|
    ensures RuleFor(TimingMetricAggregation[i].metric, TimingMetricAggregation) == Some(TimingMetricAggregation[i])
  {
    PolicyMetricsDistinct();
    RuleForFindsRule(TimingMetricAggregation, i);
  }

  /**
    A rule's identity changes nothing when combined with a value of the
    metric: always for sums, skews and slacks, and for the unannotated-net
    counts on the non-negative values counts take.
  */
  lemma IdentityIsNeutral(i: nat, x: ExtReal)
    requires i < |TimingMetricAggregation|
    requires TimingMetricAggregation[i].metric in UnannotatedMetrics ==> AtMost(Fin(0.0), x)
    ensures Combine(TimingMetricAggregation[i].reduction, TimingMetricAggregation[i].identity, x) == Some(x)
  {
    AggregationPolicy(i);
  }

  const CornerMarker: string := "__corner:"

  /** The name of a metric's value for one corner. */
  function CornerKey(metric: string, corner: string): string {
    metric + CornerMarker + corner
  }

  /** Distinct corners of one metric have distinct per-corner names. */
  lemma CornerKeyInjective(metric: string, c1: string, c2: string)
    requires CornerKey(metric, c1) == CornerKey(metric, c2)
    ensures c1 == c2
  {
    var n := |metric + CornerMarker|;
    assert c1 == CornerKey(metric, c1)[n..];
    assert c2 == CornerKey(metric, c2)[n..];
  }
}
