/**
  The legacy track-specification transpiler (`old_to_new_tracks`,
  openlane/steps/openroad.py): a text of `layer axis offset pitch` records
  becomes one `make_tracks` directive per layer.

  The transpiler runs in three stages: the non-blank lines are parsed into
  records, the records are collected per layer and axis (the last record for
  a layer and axis wins, layers keep the order in which they were first seen),
  and each layer is rendered from its X and its Y track.
*/
module Tracks {
  import opened Wrappers
  import opened Strings
  import opened Seqs

  /** One line of the legacy format. */
  datatype Record = Record(layer: string, axis: string, offset: string, pitch: string)

  /** The offset and pitch of the tracks of one layer along one axis. */
  datatype Track = Track(offset: string, pitch: string)

  datatype TrackError =
    | MalformedLine(fields: seq<string>)      // a non-blank line without exactly four fields (ValueError)
    | MissingAxis(layer: string, axis: string) // a layer without an X or a Y record (KeyError)

  /** The fields of a record, in the order the line lists them. */
  function Fields(r: Record): seq<string> {
    [r.layer, r.axis, r.offset, r.pitch]
  }

  function TrackOf(r: Record): Track {
    Track(r.offset, r.pitch)
  }

  /** The lines of a text, cut at every line boundary `str.splitlines()` knows. */
  function Lines(text: string): seq<string> {
    Split(text, LineBreaks)
  }

  /**
    The whitespace-separated fields of each line.  A line is blank (its
    `strip()` is empty) exactly when it has no fields, see `Strings.BlankIffNoWords`.
  */
  function FieldLines(text: string): (r: seq<seq<string>>)
    ensures |r| == |Lines(text)|
    ensures forall i :: 0 <= i < |r| ==> r[i] == Words(Lines(text)[i])
  {
    var lines := Lines(text);
    seq(|lines|, i requires 0 <= i < |lines| => Words(lines[i]))
  }

  /** A line the transpiler accepts: blank, or exactly four fields. */
  predicate GoodLine(fields: seq<string>) {
    |fields| == 0 || |fields| == 4
  }

  /** The fields of the non-blank lines, in order. */
  function NonBlankLines(lines: seq<seq<string>>): (r: seq<seq<string>>)
    ensures forall i :: 0 <= i < |r| ==> r[i] != [] && r[i] in lines
  {
    if |lines| == 0 then []
    else (if lines[0] == [] then [] else [lines[0]]) + NonBlankLines(lines[1..])
  }

  /**
    One record per non-blank line; the first non-blank line that does not have
    exactly four fields is an error.
  */
  function ParseRecords(lines: seq<seq<string>>): (r: Result<seq<Record>, TrackError>)
    ensures r.Success? <==> forall i :: 0 <= i < |lines| ==> GoodLine(lines[i])
    ensures r.Failure? ==> exists i ::
      && 0 <= i < |lines| && r.error == MalformedLine(lines[i]) && !GoodLine(lines[i])
      && forall j :: 0 <= j < i ==> GoodLine(lines[j])
  {
    if |lines| == 0 then Success([])
    else
      var rest := ParseRecords(lines[1..]);
      var w := lines[0];
      if w == [] then rest
      else if |w| != 4 then Failure(MalformedLine(w))
      else
        match rest
        case Success(recs) => Success([Record(w[0], w[1], w[2], w[3])] + recs)
        case Failure(e) => Failure(e)
  }

  /** The records are the non-blank lines' fields, in order: blank lines contribute nothing. */
  lemma {:induction false} ParsedRecordsAreNonBlankLines(lines: seq<seq<string>>)
    requires ParseRecords(lines).Success?
    ensures |ParseRecords(lines).value| == |NonBlankLines(lines)|
    ensures forall k :: 0 <= k < |NonBlankLines(lines)| ==>
      Fields(ParseRecords(lines).value[k]) == NonBlankLines(lines)[k]
  {
    if |lines| > 0 {
      ParsedRecordsAreNonBlankLines(lines[1..]);
    }
  }

  /** The tracks collected so far: layers in first-seen order and their tracks per axis. */
  datatype Layers = Layers(order: seq<string>, axes: map<string, map<string, Track>>)

  /** Exactly the layers of `order` have tracks, and no layer is listed twice. */
  predicate WellFormed(t: Layers) {
    && Distinct(t.order)
    && (forall i :: 0 <= i < |t.order| ==> t.order[i] in t.axes)
    && forall layer :: layer in t.axes ==> layer in t.order
  }

  /** The layer names of the records, in order. */
  function LayerNames(recs: seq<Record>): (r: seq<string>)
    ensures |r| == |recs| && forall i :: 0 <= i < |recs| ==> r[i] == recs[i].layer
  {
    seq(|recs|, i requires 0 <= i < |recs| => recs[i].layer)
  }

  /** Adds one record: it sets the track of its layer and axis, a new layer goes last. */
  function Put(t: Layers, r: Record): Layers {
    var tracks := if r.layer in t.axes then t.axes[r.layer] else map[];
    Layers(if r.layer in t.axes then t.order else t.order + [r.layer],
           t.axes[r.layer := tracks[r.axis := TrackOf(r)]])
  }

  /** The records in order, each overwriting the track of its layer and axis. */
  function Collect(recs: seq<Record>): Layers
    decreases |recs|
  {
    if |recs| == 0 then Layers([], map[])
    else Put(Collect(recs[..|recs| - 1]), recs[|recs| - 1])
  }

  /** Putting a record keeps the layer list in step with the tracks. */
  lemma PutWellFormed(t: Layers, r: Record)
    requires WellFormed(t)
    ensures WellFormed(Put(t, r))
  {
  }

  lemma {:induction false} CollectWellFormed(recs: seq<Record>)
    ensures WellFormed(Collect(recs))
    decreases |recs|
  {
    if |recs| > 0 {
      CollectWellFormed(recs[..|recs| - 1]);
      PutWellFormed(Collect(recs[..|recs| - 1]), recs[|recs| - 1]);
    }
  }

  lemma CollectAppend(recs: seq<Record>, r: Record)
    ensures Collect(recs + [r]) == Put(Collect(recs), r)
  {
    assert (recs + [r])[..|recs|] == recs;
  }

  predicate Matches(r: Record, layer: string, axis: string) {
    r.layer == layer && r.axis == axis
  }

  predicate HasTrack(t: Layers, layer: string, axis: string) {
    layer in t.axes && axis in t.axes[layer]
  }

  predicate HasRecord(recs: seq<Record>, layer: string, axis: string) {
    exists i :: 0 <= i < |recs| && Matches(recs[i], layer, axis)
  }

  /** `track` is that of the last record for `layer` and `axis`. */
  predicate IsLastTrack(recs: seq<Record>, layer: string, axis: string, track: Track) {
    exists i :: 0 <= i < |recs| && Matches(recs[i], layer, axis) && TrackOf(recs[i]) == track &&
      forall j :: i < j < |recs| ==> !Matches(recs[j], layer, axis)
  }

  /** Layers are listed in the order in which records first name them. */
  lemma {:induction false} CollectOrder(recs: seq<Record>)
    ensures Collect(recs).order == Dedupe(LayerNames(recs))
    decreases |recs|
  {
    if |recs| > 0 {
      var n := |recs| - 1;
      var p := recs[..n];
      CollectOrder(p);
      CollectWellFormed(p);
      CollectOrderLast(recs);
    }
  }

  /** The last record lists its layer last exactly when no earlier record named it. */
  lemma CollectOrderLast(recs: seq<Record>)
    requires |recs| > 0
    requires Collect(recs[..|recs| - 1]).order == Dedupe(LayerNames(recs[..|recs| - 1]))
    requires recs[|recs| - 1].layer in Collect(recs[..|recs| - 1]).axes <==>
      recs[|recs| - 1].layer in Collect(recs[..|recs| - 1]).order
    ensures Collect(recs).order == Dedupe(LayerNames(recs))
  {
    LayerNamesPrefix(recs, |recs| - 1);
  }

  lemma LayerNamesPrefix(recs: seq<Record>, n: nat)
    requires n <= |recs|
    ensures LayerNames(recs)[..n] == LayerNames(recs[..n])
  {
  }

  /** Layers listed in first-seen order of `names` are exactly the names. */
  lemma KnownLayer(t: Layers, names: seq<string>, layer: string)
    requires WellFormed(t) && t.order == Dedupe(names)
    ensures layer in t.axes <==> layer in names
  {
    if layer in names {
      var i :| 0 <= i < |names| && names[i] == layer;
      assert names[i] in Dedupe(names);
    }
    if layer in t.order {
      var i :| 0 <= i < |t.order| && t.order[i] == layer;
      assert t.order[i] in names;
    }
  }

  /** One more record adds the track it names and keeps every other. */
  lemma CollectStepHasTrack(recs: seq<Record>, layer: string, axis: string)
    requires |recs| > 0
    ensures HasTrack(Collect(recs), layer, axis) <==>
      HasTrack(Collect(recs[..|recs| - 1]), layer, axis) || Matches(recs[|recs| - 1], layer, axis)
  {
  }

  lemma HasRecordStep(recs: seq<Record>, layer: string, axis: string)
    requires |recs| > 0
    ensures HasRecord(recs, layer, axis) <==>
      HasRecord(recs[..|recs| - 1], layer, axis) || Matches(recs[|recs| - 1], layer, axis)
  {
    var p := recs[..|recs| - 1];
    if HasRecord(recs, layer, axis) && !Matches(recs[|recs| - 1], layer, axis) {
      var i :| 0 <= i < |recs| && Matches(recs[i], layer, axis);
      assert p[i] == recs[i];
    }
    if HasRecord(p, layer, axis) {
      var i :| 0 <= i < |p| && Matches(p[i], layer, axis);
      assert recs[i] == p[i];
    }
  }

  /** A layer has a track along an axis exactly when some record names both. */
  lemma {:induction false} CollectHasTrack(recs: seq<Record>, layer: string, axis: string)
    ensures HasTrack(Collect(recs), layer, axis) <==> HasRecord(recs, layer, axis)
    decreases |recs|
  {
    if |recs| > 0 {
      CollectHasTrack(recs[..|recs| - 1], layer, axis);
      CollectStepHasTrack(recs, layer, axis);
      HasRecordStep(recs, layer, axis);
    }
  }

  /** A layer's track along an axis is that of the last record naming both. */
  lemma {:induction false} CollectLastTrack(recs: seq<Record>, layer: string, axis: string)
    requires HasTrack(Collect(recs), layer, axis)
    ensures IsLastTrack(recs, layer, axis, Collect(recs).axes[layer][axis])
    decreases |recs|
  {
    var n := |recs| - 1;
    var p := recs[..n];
    var r := recs[n];
    assert p + [r] == recs;
    CollectAppend(p, r);
    if Matches(r, layer, axis) {
      assert Collect(recs).axes[layer][axis] == TrackOf(recs[n]);
    } else {
      PutOther(Collect(p), r, layer, axis);
      CollectLastTrack(p, layer, axis);
      LastTrackExtend(p, r, layer, axis, Collect(p).axes[layer][axis]);
    }
  }

  /** A record for another layer or axis leaves a track as it was. */
  lemma PutOther(t: Layers, r: Record, layer: string, axis: string)
    requires !Matches(r, layer, axis) && HasTrack(Put(t, r), layer, axis)
    ensures HasTrack(t, layer, axis) && Put(t, r).axes[layer][axis] == t.axes[layer][axis]
  {
  }

  /** The last record for a layer and axis stays the last after a record for something else. */
  lemma LastTrackExtend(p: seq<Record>, r: Record, layer: string, axis: string, track: Track)
    requires IsLastTrack(p, layer, axis, track) && !Matches(r, layer, axis)
    ensures IsLastTrack(p + [r], layer, axis, track)
  {
    var i :| 0 <= i < |p| && Matches(p[i], layer, axis) && TrackOf(p[i]) == track &&
      forall j :: i < j < |p| ==> !Matches(p[j], layer, axis);
    assert (p + [r])[i] == p[i];
    assert forall j :: i < j < |p| + 1 ==> (p + [r])[j] == if j < |p| then p[j] else r;
  }

  function MakeTracks(layer: string, x: Track, y: Track): string {
    "make_tracks " + layer + " -x_offset " + x.offset + " -x_pitch " + x.pitch
      + " -y_offset " + y.offset + " -y_pitch " + y.pitch + "\n"
  }

  /**
    One directive per layer of `order`, in order; the first layer (in order)
    without an X track, or else without a Y track, is an error.
  */
  function Render(order: seq<string>, axes: map<string, map<string, Track>>): (r: Result<string, TrackError>)
    requires forall i :: 0 <= i < |order| ==> order[i] in axes
    ensures r.Success? <==> forall i :: 0 <= i < |order| ==> "X" in axes[order[i]] && "Y" in axes[order[i]]
    ensures r.Failure? ==> exists i ::
      && 0 <= i < |order|
      && r.error.MissingAxis? && r.error.layer == order[i]
      && ((r.error.axis == "X" && "X" !in axes[order[i]])
          || (r.error.axis == "Y" && "X" in axes[order[i]] && "Y" !in axes[order[i]]))
      && forall j :: 0 <= j < i ==> "X" in axes[order[j]] && "Y" in axes[order[j]]
  {
    if |order| == 0 then Success("")
    else
      var tracks := axes[order[0]];
      if "X" !in tracks then Failure(MissingAxis(order[0], "X"))
      else if "Y" !in tracks then Failure(MissingAxis(order[0], "Y"))
      else
        match Render(order[1..], axes)
        case Success(rest) => Success(MakeTracks(order[0], tracks["X"], tracks["Y"]) + rest)
        case Failure(e) => Failure(e)
  }

  /** `old_to_new_tracks`. */
  function Transpile(text: string): (r: Result<string, TrackError>)
  {
    var recs :- ParseRecords(FieldLines(text));
    var t := Collect(recs);
    CollectWellFormed(recs);
    Render(t.order, t.axes)
  }

  /** The tracks of one layer, as a legacy file lists them and as a directive lays them out. */
  datatype LayerSpec = LayerSpec(layer: string, x: Track, y: Track)

  /** A field the legacy format can carry verbatim: non-empty, without whitespace. */
  predicate CleanField(f: string) {
    f != "" && Avoids(f, Whitespace)
  }

  /** Distinct layers with clean fields. */
  predicate CleanSpecs(specs: seq<LayerSpec>) {
    && (forall i, j :: 0 <= i < j < |specs| ==> specs[i].layer != specs[j].layer)
    && forall i :: 0 <= i < |specs| ==>
         && CleanField(specs[i].layer)
         && CleanField(specs[i].x.offset) && CleanField(specs[i].x.pitch)
         && CleanField(specs[i].y.offset) && CleanField(specs[i].y.pitch)
  }

  /** The two legacy records of each layer: X first, then Y. */
  function RecordsOf(specs: seq<LayerSpec>): (r: seq<Record>)
    ensures |r| == 2 * |specs|
  {
    if |specs| == 0 then []
    else
      var last := specs[|specs| - 1];
      RecordsOf(specs[..|specs| - 1])
        + [Record(last.layer, "X", last.x.offset, last.x.pitch), Record(last.layer, "Y", last.y.offset, last.y.pitch)]
  }

  /** The legacy lines: the fields of each record separated by single spaces. */
  function LegacyLines(recs: seq<Record>): (r: seq<string>)
    ensures |r| == |recs| && forall i :: 0 <= i < |recs| ==> r[i] == Join(Fields(recs[i]), ' ')
  {
    seq(|recs|, i requires 0 <= i < |recs| => Join(Fields(recs[i]), ' '))
  }

  /** The legacy file of `specs`: one newline-terminated line per record. */
  function LegacyText(specs: seq<LayerSpec>): string {
    Join(LegacyLines(RecordsOf(specs)) + [""], '\n')
  }

  /** The directives of `specs`, one per layer, in order. */
  function Directives(specs: seq<LayerSpec>): string {
    if |specs| == 0 then ""
    else MakeTracks(specs[0].layer, specs[0].x, specs[0].y) + Directives(specs[1..])
  }

  function SpecLayers(specs: seq<LayerSpec>): (r: seq<string>)
    ensures |r| == |specs| && forall i :: 0 <= i < |specs| ==> r[i] == specs[i].layer
  {
    seq(|specs|, i requires 0 <= i < |specs| => specs[i].layer)
  }

  function AxesOf(spec: LayerSpec): map<string, Track> {
    map["X" := spec.x, "Y" := spec.y]
  }

  /** A trailing blank line adds nothing. */
  lemma {:induction false} ParseTrailingBlank(lines: seq<seq<string>>)
    ensures ParseRecords(lines + [[]]) == ParseRecords(lines)
  {
    if |lines| > 0 {
      ParseTrailingBlank(lines[1..]);
      assert (lines + [[]])[1..] == lines[1..] + [[]];
    }
  }

  /** A record's fields parse back to the record. */
  lemma {:induction false} ParseFields(recs: seq<Record>)
    ensures ParseRecords(seq(|recs|, i requires 0 <= i < |recs| => Fields(recs[i]))) == Success(recs)
  {
    var lines := seq(|recs|, i requires 0 <= i < |recs| => Fields(recs[i]));
    if |recs| > 0 {
      ParseFields(recs[1..]);
      assert lines[1..] == seq(|recs[1..]|, i requires 0 <= i < |recs[1..]| => Fields(recs[1..][i]));
      assert [recs[0]] + recs[1..] == recs;
    }
  }

  lemma RecordsOfClean(specs: seq<LayerSpec>, k: nat)
    requires CleanSpecs(specs) && k < |RecordsOf(specs)|
    ensures forall f :: 0 <= f < 4 ==> CleanField(Fields(RecordsOf(specs)[k])[f])
  {
    if k < 2 * (|specs| - 1) {
      RecordsOfClean(specs[..|specs| - 1], k);
    }
  }

  /** The fields of the legacy text's lines are the records' fields, then one blank line. */
  lemma LegacyFieldLines(specs: seq<LayerSpec>)
    requires CleanSpecs(specs)
    ensures var recs := RecordsOf(specs);
      FieldLines(LegacyText(specs)) == seq(|recs|, i requires 0 <= i < |recs| => Fields(recs[i])) + [[]]
  {
    var recs := RecordsOf(specs);
    var lines := LegacyLines(recs) + [""];
    var expected := seq(|recs|, i requires 0 <= i < |recs| => Fields(recs[i])) + [[]];
    forall i | 0 <= i < |lines|
      ensures Avoids(lines[i], LineBreaks)
      ensures Words(lines[i]) == expected[i]
    {
      if i < |recs| {
        LegacyLine(specs, i);
      } else {
        assert Words("") == [];
      }
    }
    SplitJoin(lines, '\n', LineBreaks);
    FieldLinesAre(LegacyText(specs), expected);
  }

  /** Text whose lines have the expected fields has those field lines. */
  lemma FieldLinesAre(text: string, expected: seq<seq<string>>)
    requires |Lines(text)| == |expected|
    requires forall i :: 0 <= i < |expected| ==> Words(Lines(text)[i]) == expected[i]
    ensures FieldLines(text) == expected
  {
  }

  /** One legacy line holds no line break and splits into its record's fields. */
  lemma LegacyLine(specs: seq<LayerSpec>, i: nat)
    requires CleanSpecs(specs) && i < |RecordsOf(specs)|
    ensures Avoids(LegacyLines(RecordsOf(specs))[i], LineBreaks)
    ensures Words(LegacyLines(RecordsOf(specs))[i]) == Fields(RecordsOf(specs)[i])
  {
    var fields := Fields(RecordsOf(specs)[i]);
    RecordsOfClean(specs, i);
    assert LineBreaks <= Whitespace;
    JoinAvoids(fields, ' ', LineBreaks);
    WordsJoin(fields);
  }

  /** The two records of a new layer add it last, with its X and its Y track. */
  lemma PutSpec(t: Layers, spec: LayerSpec)
    requires spec.layer !in t.axes
    ensures Put(Put(t, Record(spec.layer, "X", spec.x.offset, spec.x.pitch)),
                Record(spec.layer, "Y", spec.y.offset, spec.y.pitch))
      == Layers(t.order + [spec.layer], t.axes[spec.layer := AxesOf(spec)])
  {
    assert map["X" := spec.x]["Y" := spec.y] == AxesOf(spec);
  }

  /** The tracks of every layer of `specs`, the last spec of a layer winning. */
  function SpecAxes(specs: seq<LayerSpec>): (m: map<string, map<string, Track>>)
    ensures forall layer :: layer in m <==> layer in SpecLayers(specs)
  {
    if |specs| == 0 then map[]
    else
      var last := specs[|specs| - 1];
      assert SpecLayers(specs) == SpecLayers(specs[..|specs| - 1]) + [last.layer];
      SpecAxes(specs[..|specs| - 1])[last.layer := AxesOf(last)]
  }

  lemma {:induction false} SpecAxesLookup(specs: seq<LayerSpec>, i: nat)
    requires forall a, b :: 0 <= a < b < |specs| ==> specs[a].layer != specs[b].layer
    requires i < |specs|
    ensures specs[i].layer in SpecAxes(specs) && SpecAxes(specs)[specs[i].layer] == AxesOf(specs[i])
  {
    var n := |specs| - 1;
    if i < n {
      SpecAxesLookup(specs[..n], i);
    }
  }

  /** Collecting the records of distinct layers lists each layer once, in order, with its X and Y track. */
  lemma {:induction false} CollectSpecs(specs: seq<LayerSpec>)
    requires forall i, j :: 0 <= i < j < |specs| ==> specs[i].layer != specs[j].layer
    ensures Collect(RecordsOf(specs)) == Layers(SpecLayers(specs), SpecAxes(specs))
  {
    if |specs| > 0 {
      var n := |specs| - 1;
      var p := specs[..n];
      CollectSpecs(p);
      var last := specs[n];
      assert last.layer !in SpecLayers(p) by {
        forall i | 0 <= i < n
          ensures SpecLayers(p)[i] != last.layer
        {
          assert p[i] == specs[i];
        }
      }
      assert p + [last] == specs;
      CollectSpecsStep(p, last);
    }
  }

  /** One more layer, new to the collected ones, is appended with its tracks. */
  lemma CollectSpecsStep(p: seq<LayerSpec>, last: LayerSpec)
    requires last.layer !in SpecLayers(p)
    requires Collect(RecordsOf(p)) == Layers(SpecLayers(p), SpecAxes(p))
    ensures Collect(RecordsOf(p + [last])) == Layers(SpecLayers(p + [last]), SpecAxes(p + [last]))
  {
    var rx := Record(last.layer, "X", last.x.offset, last.x.pitch);
    var ry := Record(last.layer, "Y", last.y.offset, last.y.pitch);
    var r := RecordsOf(p);
    SpecsSnoc(p, last);
    CollectAppend(r, rx);
    CollectAppend(r + [rx], ry);
    PutSpec(Collect(r), last);
  }

  lemma SpecsSnoc(p: seq<LayerSpec>, last: LayerSpec)
    ensures RecordsOf(p + [last])
      == (RecordsOf(p) + [Record(last.layer, "X", last.x.offset, last.x.pitch)])
         + [Record(last.layer, "Y", last.y.offset, last.y.pitch)]
    ensures SpecLayers(p + [last]) == SpecLayers(p) + [last.layer]
    ensures SpecAxes(p + [last]) == SpecAxes(p)[last.layer := AxesOf(last)]
  {
    assert (p + [last])[..|p|] == p;
  }

  /** Rendering layers whose tracks are those of `specs` gives the specs' directives. */
  lemma {:induction false} RenderSpecs(specs: seq<LayerSpec>, axes: map<string, map<string, Track>>)
    requires forall i :: 0 <= i < |specs| ==> specs[i].layer in axes && axes[specs[i].layer] == AxesOf(specs[i])
    ensures Render(SpecLayers(specs), axes) == Success(Directives(specs))
  {
    if |specs| > 0 {
      RenderSpecs(specs[1..], axes);
      assert SpecLayers(specs)[1..] == SpecLayers(specs[1..]);
    }
  }

  /** Records of distinct layers, once parsed, become one directive per layer in order. */
  lemma TranspileParsed(text: string, specs: seq<LayerSpec>)
    requires forall i, j :: 0 <= i < j < |specs| ==> specs[i].layer != specs[j].layer
    requires ParseRecords(FieldLines(text)) == Success(RecordsOf(specs))
    ensures Transpile(text) == Success(Directives(specs))
  {
    CollectSpecs(specs);
    forall i | 0 <= i < |specs|
      ensures specs[i].layer in SpecAxes(specs) && SpecAxes(specs)[specs[i].layer] == AxesOf(specs[i])
    {
      SpecAxesLookup(specs, i);
    }
    RenderSpecs(specs, SpecAxes(specs));
  }

  /**
    The transpiler's round trip: the legacy file of distinct layers with clean
    fields becomes exactly one directive per layer, in the file's layer order,
    with every field copied verbatim.
  */
  lemma TranspileLegacy(specs: seq<LayerSpec>)
    requires CleanSpecs(specs)
    ensures Transpile(LegacyText(specs)) == Success(Directives(specs))
  {
    var recs := RecordsOf(specs);
    LegacyFieldLines(specs);
    ParseTrailingBlank(seq(|recs|, i requires 0 <= i < |recs| => Fields(recs[i])));
    ParseFields(recs);
    TranspileParsed(LegacyText(specs), specs);
  }

  lemma FieldLinesCons(a: string, b: string)
    requires |Lines(a)| > 0 && Lines(a)[1..] == Lines(b)
    ensures FieldLines(a) == [Words(Lines(a)[0])] + FieldLines(b)
  {
    var fa := FieldLines(a);
    var fb := FieldLines(b);
    assert |fa| == |fb| + 1;
    forall i | 0 <= i < |fb|
      ensures fa[i + 1] == fb[i]
    {
      assert Lines(a)[i + 1] == Lines(b)[i];
    }
  }

  lemma LeadingBlankFields(line: string, text: string)
    requires Avoids(line, LineBreaks) && Strip(line) == ""
    ensures FieldLines(line + "\n" + text) == [[]] + FieldLines(text)
  {
    SplitAfterSeparator(line, '\n', text, LineBreaks);
    BlankIffNoWords(line);
    FieldLinesCons(line + "\n" + text, text);
  }

  /** A blank line before the text is skipped. */
  lemma LeadingBlankLine(line: string, text: string)
    requires Avoids(line, LineBreaks) && Strip(line) == ""
    ensures Transpile(line + "\n" + text) == Transpile(text)
  {
    LeadingBlankFields(line, text);
    var rest := FieldLines(text);
    assert ([[]] + rest)[1..] == rest;
    assert ParseRecords([[]] + rest) == ParseRecords(rest);
  }

}
