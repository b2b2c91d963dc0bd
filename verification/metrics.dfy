/**
  Metric values and the post-processing an OpenROAD step applies to the
  metrics file the tool writes (openlane/steps/openroad.py, `OpenROADStep.run`):
  the strings "Infinity" and "-Infinity" stand for the float infinities, and
  the tool's metrics overwrite same-named metrics of the step.
*/
module Metrics {
  import opened Wrappers
  import opened Values

  /** The numbers metrics take: reals extended with both infinities. */
  datatype ExtReal = Fin(r: real) | PosInf | NegInf

  /** The numeric reading of a metric value; None for a non-numeric value. */
  function AsExtReal(v: Value): Option<ExtReal> {
    match v
    case VBool(b) => Some(Fin(if b then 1.0 else 0.0))
    case VInt(i) => Some(Fin(i as real))
    case VDec(d) => Some(Fin(d))
    case VInf => Some(PosInf)
    case VNegInf => Some(NegInf)
    case _ => None
  }

  /** The value that stores an extended real. */
  function FromExtReal(x: ExtReal): Value {
    match x
    case Fin(r) => VDec(r)
    case PosInf => VInf
    case NegInf => VNegInf
  }

  lemma ExtRealRoundTrip(x: ExtReal)
    ensures AsExtReal(FromExtReal(x)) == Some(x)
  {
  }

  const InfinityText: string := "Infinity"
  const NegInfinityText: string := "-Infinity"

  /** One value of the tool's metrics file as the step reads it. */
  function ReadSentinel(v: Value): Value {
    if v == VStr(InfinityText) then VInf
    else if v == VStr(NegInfinityText) then VNegInf
    else v
  }

  /** One metric value as the JSON encoding writes it: infinities become their sentinel strings. */
  function WriteSentinel(v: Value): Value {
    match v
    case VInf => VStr(InfinityText)
    case VNegInf => VStr(NegInfinityText)
    case _ => v
  }

  /** A value JSON can carry: anything but a float infinity at the top level. */
  predicate IsJsonScalar(v: Value) {
    !v.VInf? && !v.VNegInf?
  }

  /**
    Reading and writing are inverse: a JSON value read and written back is
    unchanged, and a metric written and read back is unchanged unless it is a
    string that spells a sentinel.
  */
  lemma SentinelRoundTrip(v: Value)
    ensures IsJsonScalar(v) ==> WriteSentinel(ReadSentinel(v)) == v
    ensures v != VStr(InfinityText) && v != VStr(NegInfinityText) ==> ReadSentinel(WriteSentinel(v)) == v
  {
  }

  /** Every value of the tool's metrics file, read (openroad.py:270-274). */
  function ReadToolMetrics(raw: map<string, Value>): (m: map<string, Value>)
    ensures m.Keys == raw.Keys
    ensures forall k :: k in raw ==>
      && (m[k] == VInf <==> raw[k] == VStr(InfinityText) || raw[k] == VInf)
      && (m[k] == VNegInf <==> raw[k] == VStr(NegInfinityText) || raw[k] == VNegInf)
      && (raw[k] != VStr(InfinityText) && raw[k] != VStr(NegInfinityText) ==> m[k] == raw[k])
  {
    map k | k in raw :: ReadSentinel(raw[k])
  }

  /** Every metric, written. */
  function WriteMetrics(m: map<string, Value>): (raw: map<string, Value>)
    ensures raw.Keys == m.Keys
    ensures forall k :: k in m ==> IsJsonScalar(raw[k])
  {
    map k | k in m :: WriteSentinel(m[k])
  }

  /** A metrics file written back after reading is the same file. */
  lemma {:induction false} ToolMetricsRoundTrip(raw: map<string, Value>)
    requires forall k :: k in raw ==> IsJsonScalar(raw[k])
    ensures WriteMetrics(ReadToolMetrics(raw)) == raw
  {
    var back := WriteMetrics(ReadToolMetrics(raw));
    forall k | k in raw
      ensures back[k] == raw[k]
    {
      SentinelRoundTrip(raw[k]);
    }
  }

  /**
    The step's metrics after the tool ran: when the metrics file exists, its
    values, read, overwrite the same-named metrics; all other metrics stay.
  */
  function MergeToolMetrics(updates: map<string, Value>, toolFile: Option<map<string, Value>>): (r: map<string, Value>)
    ensures toolFile.None? ==> r == updates
    ensures toolFile.Some? ==> r.Keys == updates.Keys + toolFile.value.Keys
    ensures toolFile.Some? ==> forall k :: k in toolFile.value ==> r[k] == ReadSentinel(toolFile.value[k])
    ensures forall k :: k in updates && (toolFile.None? || k !in toolFile.value) ==> r[k] == updates[k]
  {
    match toolFile
    case None => updates
    case Some(raw) => updates + ReadToolMetrics(raw)
  }
}
