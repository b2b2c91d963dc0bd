/**
  The example documented with the track transpiler (openlane/steps/openroad.py,
  `EXAMPLE_INPUT` and the doctest of `old_to_new_tracks`), and the proof that
  the model produces exactly the documented output for it.
*/
module TracksExample {
  import opened Wrappers
  import opened Strings
  import opened Tracks

  /** The six layers of the example, each listed with its X record before its Y record. */
  const ExampleSpecs: seq<LayerSpec> := [
    LayerSpec("li1", Track("0.23", "0.46"), Track("0.17", "0.34")),
    LayerSpec("met1", Track("0.17", "0.34"), Track("0.17", "0.34")),
    LayerSpec("met2", Track("0.23", "0.46"), Track("0.23", "0.46")),
    LayerSpec("met3", Track("0.34", "0.68"), Track("0.34", "0.68")),
    LayerSpec("met4", Track("0.46", "0.92"), Track("0.46", "0.92")),
    LayerSpec("met5", Track("1.70", "3.40"), Track("1.70", "3.40"))
  ]

  /**
    `EXAMPLE_INPUT`: a triple-quoted text that opens with a line break and
    then lists the legacy line of each record, each line ending in a line break.
  */
  const ExampleInput: string := "\n" + LegacyText(ExampleSpecs)

  /** The lines of the documented output, one directive per layer. */
  const ExampleOutputLines: seq<string> := [
    "make_tracks li1 -x_offset 0.23 -x_pitch 0.46 -y_offset 0.17 -y_pitch 0.34\n",
    "make_tracks met1 -x_offset 0.17 -x_pitch 0.34 -y_offset 0.17 -y_pitch 0.34\n",
    "make_tracks met2 -x_offset 0.23 -x_pitch 0.46 -y_offset 0.23 -y_pitch 0.46\n",
    "make_tracks met3 -x_offset 0.34 -x_pitch 0.68 -y_offset 0.34 -y_pitch 0.68\n",
    "make_tracks met4 -x_offset 0.46 -x_pitch 0.92 -y_offset 0.46 -y_pitch 0.92\n",
    "make_tracks met5 -x_offset 1.70 -x_pitch 3.40 -y_offset 1.70 -y_pitch 3.40\n"
  ]

  /** The documented output. */
  const ExampleOutput: string := Concat(ExampleOutputLines)

  /** The strings of `parts`, one after the other. */
  function Concat(parts: seq<string>): string {
    if |parts| == 0 then "" else parts[0] + Concat(parts[1..])
  }

  /** Printable ASCII other than the space is no whitespace. */
  lemma PrintableIsNoSpace(c: char)
    requires '!' <= c <= '~'
    ensures c !in Whitespace
  {
  }

  predicate Printable(f: string) {
    f != "" && forall i :: 0 <= i < |f| ==> '!' <= f[i] <= '~'
  }

  lemma PrintableIsClean(f: string)
    requires Printable(f)
    ensures CleanField(f)
  {
    forall i | 0 <= i < |f|
      ensures f[i] !in Whitespace
    {
      PrintableIsNoSpace(f[i]);
    }
  }

  lemma PrintableSpec(s: LayerSpec)
    requires Printable(s.layer) && Printable(s.x.offset) && Printable(s.x.pitch)
    requires Printable(s.y.offset) && Printable(s.y.pitch)
    ensures CleanField(s.layer) && CleanField(s.x.offset) && CleanField(s.x.pitch)
    ensures CleanField(s.y.offset) && CleanField(s.y.pitch)
  {
    PrintableIsClean(s.layer);
    PrintableIsClean(s.x.offset);
    PrintableIsClean(s.x.pitch);
    PrintableIsClean(s.y.offset);
    PrintableIsClean(s.y.pitch);
  }

  /** The example's layer names are printable. */
  lemma ExampleNamesPrintable()
    ensures Printable("li1") && Printable("met1") && Printable("met2")
    ensures Printable("met3") && Printable("met4") && Printable("met5")
  {
  }

  /** The example's offsets and pitches are printable. */
  lemma ExampleNumbersPrintable()
    ensures Printable("0.17") && Printable("0.23") && Printable("0.34") && Printable("0.46")
    ensures Printable("0.68") && Printable("0.92") && Printable("1.70") && Printable("3.40")
  {
  }

  lemma ExampleSpecClean(i: nat)
    requires i < |ExampleSpecs|
    ensures CleanField(ExampleSpecs[i].layer)
    ensures CleanField(ExampleSpecs[i].x.offset) && CleanField(ExampleSpecs[i].x.pitch)
    ensures CleanField(ExampleSpecs[i].y.offset) && CleanField(ExampleSpecs[i].y.pitch)
  {
    ExampleNamesPrintable();
    ExampleNumbersPrintable();
    PrintableSpec(ExampleSpecs[i]);
  }

  /** The example names each layer once: they differ in length or in their last character. */
  lemma ExampleLayersDistinct()
    ensures forall i, j :: 0 <= i < j < |ExampleSpecs| ==> ExampleSpecs[i].layer != ExampleSpecs[j].layer
  {
    forall i, j | 0 <= i < j < |ExampleSpecs|
      ensures ExampleSpecs[i].layer != ExampleSpecs[j].layer
    {
      var a, b := ExampleSpecs[i].layer, ExampleSpecs[j].layer;
      assert |a| != |b| || a[|a| - 1] != b[|b| - 1];
    }
  }

  lemma ExampleIsClean()
    ensures CleanSpecs(ExampleSpecs)
  {
    ExampleLayersDistinct();
    forall i | 0 <= i < |ExampleSpecs|
      ensures CleanField(ExampleSpecs[i].layer)
      ensures CleanField(ExampleSpecs[i].x.offset) && CleanField(ExampleSpecs[i].x.pitch)
      ensures CleanField(ExampleSpecs[i].y.offset) && CleanField(ExampleSpecs[i].y.pitch)
    {
      ExampleSpecClean(i);
    }
  }

  // Each directive of the example, spelled out a piece at a time: a literal
  // grows by one short piece per step, in three stages.

  /** A directive up to its X pitch. */
  function XPart(layer: string, x: Track): string {
    "make_tracks " + layer + " -x_offset " + x.offset + " -x_pitch " + x.pitch
  }

  /** A directive up to its Y offset. */
  function YOffsetPart(layer: string, x: Track, y: Track): string {
    XPart(layer, x) + " -y_offset " + y.offset
  }

  lemma ExampleXPart0()
    ensures XPart("li1", Track("0.23", "0.46")) == "make_tracks li1 -x_offset 0.23 -x_pitch 0.46"
  {
    assert "make_tracks " + "li1" == "make_tracks li1";
    assert "make_tracks li1" + " -x_offset " == "make_tracks li1 -x_offset ";
    assert "make_tracks li1 -x_offset " + "0.23" == "make_tracks li1 -x_offset 0.23";
    assert "make_tracks li1 -x_offset 0.23" + " -x_pitch " == "make_tracks li1 -x_offset 0.23 -x_pitch ";
    assert "make_tracks li1 -x_offset 0.23 -x_pitch " + "0.46" == "make_tracks li1 -x_offset 0.23 -x_pitch 0.46";
  }

  lemma ExampleYOffsetPart0()
    ensures YOffsetPart("li1", Track("0.23", "0.46"), Track("0.17", "0.34")) == "make_tracks li1 -x_offset 0.23 -x_pitch 0.46 -y_offset 0.17"
  {
    ExampleXPart0();
    assert "make_tracks li1 -x_offset 0.23 -x_pitch 0.46" + " -y_offset " == "make_tracks li1 -x_offset 0.23 -x_pitch 0.46 -y_offset ";
    assert "make_tracks li1 -x_offset 0.23 -x_pitch 0.46 -y_offset " + "0.17" == "make_tracks li1 -x_offset 0.23 -x_pitch 0.46 -y_offset 0.17";
  }

  lemma ExampleDirective0()
    ensures MakeTracks("li1", Track("0.23", "0.46"), Track("0.17", "0.34")) == "make_tracks li1 -x_offset 0.23 -x_pitch 0.46 -y_offset 0.17 -y_pitch 0.34\n"
  {
    ExampleYOffsetPart0();
    assert "make_tracks li1 -x_offset 0.23 -x_pitch 0.46 -y_offset 0.17" + " -y_pitch " == "make_tracks li1 -x_offset 0.23 -x_pitch 0.46 -y_offset 0.17 -y_pitch ";
    assert "make_tracks li1 -x_offset 0.23 -x_pitch 0.46 -y_offset 0.17 -y_pitch " + "0.34" == "make_tracks li1 -x_offset 0.23 -x_pitch 0.46 -y_offset 0.17 -y_pitch 0.34";
    assert "make_tracks li1 -x_offset 0.23 -x_pitch 0.46 -y_offset 0.17 -y_pitch 0.34" + "\n" == "make_tracks li1 -x_offset 0.23 -x_pitch 0.46 -y_offset 0.17 -y_pitch 0.34\n";
  }

  lemma ExampleXPart1()
    ensures XPart("met1", Track("0.17", "0.34")) == "make_tracks met1 -x_offset 0.17 -x_pitch 0.34"
  {
    assert "make_tracks " + "met1" == "make_tracks met1";
    assert "make_tracks met1" + " -x_offset " == "make_tracks met1 -x_offset ";
    assert "make_tracks met1 -x_offset " + "0.17" == "make_tracks met1 -x_offset 0.17";
    assert "make_tracks met1 -x_offset 0.17" + " -x_pitch " == "make_tracks met1 -x_offset 0.17 -x_pitch ";
    assert "make_tracks met1 -x_offset 0.17 -x_pitch " + "0.34" == "make_tracks met1 -x_offset 0.17 -x_pitch 0.34";
  }

  lemma ExampleYOffsetPart1()
    ensures YOffsetPart("met1", Track("0.17", "0.34"), Track("0.17", "0.34")) == "make_tracks met1 -x_offset 0.17 -x_pitch 0.34 -y_offset 0.17"
  {
    ExampleXPart1();
    assert "make_tracks met1 -x_offset 0.17 -x_pitch 0.34" + " -y_offset " == "make_tracks met1 -x_offset 0.17 -x_pitch 0.34 -y_offset ";
    assert "make_tracks met1 -x_offset 0.17 -x_pitch 0.34 -y_offset " + "0.17" == "make_tracks met1 -x_offset 0.17 -x_pitch 0.34 -y_offset 0.17";
  }

  lemma ExampleDirective1()
    ensures MakeTracks("met1", Track("0.17", "0.34"), Track("0.17", "0.34")) == "make_tracks met1 -x_offset 0.17 -x_pitch 0.34 -y_offset 0.17 -y_pitch 0.34\n"
  {
    ExampleYOffsetPart1();
    assert "make_tracks met1 -x_offset 0.17 -x_pitch 0.34 -y_offset 0.17" + " -y_pitch " == "make_tracks met1 -x_offset 0.17 -x_pitch 0.34 -y_offset 0.17 -y_pitch ";
    assert "make_tracks met1 -x_offset 0.17 -x_pitch 0.34 -y_offset 0.17 -y_pitch " + "0.34" == "make_tracks met1 -x_offset 0.17 -x_pitch 0.34 -y_offset 0.17 -y_pitch 0.34";
    assert "make_tracks met1 -x_offset 0.17 -x_pitch 0.34 -y_offset 0.17 -y_pitch 0.34" + "\n" == "make_tracks met1 -x_offset 0.17 -x_pitch 0.34 -y_offset 0.17 -y_pitch 0.34\n";
  }

  lemma ExampleXPart2()
    ensures XPart("met2", Track("0.23", "0.46")) == "make_tracks met2 -x_offset 0.23 -x_pitch 0.46"
  {
    assert "make_tracks " + "met2" == "make_tracks met2";
    assert "make_tracks met2" + " -x_offset " == "make_tracks met2 -x_offset ";
    assert "make_tracks met2 -x_offset " + "0.23" == "make_tracks met2 -x_offset 0.23";
    assert "make_tracks met2 -x_offset 0.23" + " -x_pitch " == "make_tracks met2 -x_offset 0.23 -x_pitch ";
    assert "make_tracks met2 -x_offset 0.23 -x_pitch " + "0.46" == "make_tracks met2 -x_offset 0.23 -x_pitch 0.46";
  }

  lemma ExampleYOffsetPart2()
    ensures YOffsetPart("met2", Track("0.23", "0.46"), Track("0.23", "0.46")) == "make_tracks met2 -x_offset 0.23 -x_pitch 0.46 -y_offset 0.23"
  {
    ExampleXPart2();
    assert "make_tracks met2 -x_offset 0.23 -x_pitch 0.46" + " -y_offset " == "make_tracks met2 -x_offset 0.23 -x_pitch 0.46 -y_offset ";
    assert "make_tracks met2 -x_offset 0.23 -x_pitch 0.46 -y_offset " + "0.23" == "make_tracks met2 -x_offset 0.23 -x_pitch 0.46 -y_offset 0.23";
  }

  lemma ExampleDirective2()
    ensures MakeTracks("met2", Track("0.23", "0.46"), Track("0.23", "0.46")) == "make_tracks met2 -x_offset 0.23 -x_pitch 0.46 -y_offset 0.23 -y_pitch 0.46\n"
  {
    ExampleYOffsetPart2();
    assert "make_tracks met2 -x_offset 0.23 -x_pitch 0.46 -y_offset 0.23" + " -y_pitch " == "make_tracks met2 -x_offset 0.23 -x_pitch 0.46 -y_offset 0.23 -y_pitch ";
    assert "make_tracks met2 -x_offset 0.23 -x_pitch 0.46 -y_offset 0.23 -y_pitch " + "0.46" == "make_tracks met2 -x_offset 0.23 -x_pitch 0.46 -y_offset 0.23 -y_pitch 0.46";
    assert "make_tracks met2 -x_offset 0.23 -x_pitch 0.46 -y_offset 0.23 -y_pitch 0.46" + "\n" == "make_tracks met2 -x_offset 0.23 -x_pitch 0.46 -y_offset 0.23 -y_pitch 0.46\n";
  }

  lemma ExampleXPart3()
    ensures XPart("met3", Track("0.34", "0.68")) == "make_tracks met3 -x_offset 0.34 -x_pitch 0.68"
  {
    assert "make_tracks " + "met3" == "make_tracks met3";
    assert "make_tracks met3" + " -x_offset " == "make_tracks met3 -x_offset ";
    assert "make_tracks met3 -x_offset " + "0.34" == "make_tracks met3 -x_offset 0.34";
    assert "make_tracks met3 -x_offset 0.34" + " -x_pitch " == "make_tracks met3 -x_offset 0.34 -x_pitch ";
    assert "make_tracks met3 -x_offset 0.34 -x_pitch " + "0.68" == "make_tracks met3 -x_offset 0.34 -x_pitch 0.68";
  }

  lemma ExampleYOffsetPart3()
    ensures YOffsetPart("met3", Track("0.34", "0.68"), Track("0.34", "0.68")) == "make_tracks met3 -x_offset 0.34 -x_pitch 0.68 -y_offset 0.34"
  {
    ExampleXPart3();
    assert "make_tracks met3 -x_offset 0.34 -x_pitch 0.68" + " -y_offset " == "make_tracks met3 -x_offset 0.34 -x_pitch 0.68 -y_offset ";
    assert "make_tracks met3 -x_offset 0.34 -x_pitch 0.68 -y_offset " + "0.34" == "make_tracks met3 -x_offset 0.34 -x_pitch 0.68 -y_offset 0.34";
  }

  lemma ExampleDirective3()
    ensures MakeTracks("met3", Track("0.34", "0.68"), Track("0.34", "0.68")) == "make_tracks met3 -x_offset 0.34 -x_pitch 0.68 -y_offset 0.34 -y_pitch 0.68\n"
  {
    ExampleYOffsetPart3();
    assert "make_tracks met3 -x_offset 0.34 -x_pitch 0.68 -y_offset 0.34" + " -y_pitch " == "make_tracks met3 -x_offset 0.34 -x_pitch 0.68 -y_offset 0.34 -y_pitch ";
    assert "make_tracks met3 -x_offset 0.34 -x_pitch 0.68 -y_offset 0.34 -y_pitch " + "0.68" == "make_tracks met3 -x_offset 0.34 -x_pitch 0.68 -y_offset 0.34 -y_pitch 0.68";
    assert "make_tracks met3 -x_offset 0.34 -x_pitch 0.68 -y_offset 0.34 -y_pitch 0.68" + "\n" == "make_tracks met3 -x_offset 0.34 -x_pitch 0.68 -y_offset 0.34 -y_pitch 0.68\n";
  }

  lemma ExampleXPart4()
    ensures XPart("met4", Track("0.46", "0.92")) == "make_tracks met4 -x_offset 0.46 -x_pitch 0.92"
  {
    assert "make_tracks " + "met4" == "make_tracks met4";
    assert "make_tracks met4" + " -x_offset " == "make_tracks met4 -x_offset ";
    assert "make_tracks met4 -x_offset " + "0.46" == "make_tracks met4 -x_offset 0.46";
    assert "make_tracks met4 -x_offset 0.46" + " -x_pitch " == "make_tracks met4 -x_offset 0.46 -x_pitch ";
    assert "make_tracks met4 -x_offset 0.46 -x_pitch " + "0.92" == "make_tracks met4 -x_offset 0.46 -x_pitch 0.92";
  }

  lemma ExampleYOffsetPart4()
    ensures YOffsetPart("met4", Track("0.46", "0.92"), Track("0.46", "0.92")) == "make_tracks met4 -x_offset 0.46 -x_pitch 0.92 -y_offset 0.46"
  {
    ExampleXPart4();
    assert "make_tracks met4 -x_offset 0.46 -x_pitch 0.92" + " -y_offset " == "make_tracks met4 -x_offset 0.46 -x_pitch 0.92 -y_offset ";
    assert "make_tracks met4 -x_offset 0.46 -x_pitch 0.92 -y_offset " + "0.46" == "make_tracks met4 -x_offset 0.46 -x_pitch 0.92 -y_offset 0.46";
  }

  lemma ExampleDirective4()
    ensures MakeTracks("met4", Track("0.46", "0.92"), Track("0.46", "0.92")) == "make_tracks met4 -x_offset 0.46 -x_pitch 0.92 -y_offset 0.46 -y_pitch 0.92\n"
  {
    ExampleYOffsetPart4();
    assert "make_tracks met4 -x_offset 0.46 -x_pitch 0.92 -y_offset 0.46" + " -y_pitch " == "make_tracks met4 -x_offset 0.46 -x_pitch 0.92 -y_offset 0.46 -y_pitch ";
    assert "make_tracks met4 -x_offset 0.46 -x_pitch 0.92 -y_offset 0.46 -y_pitch " + "0.92" == "make_tracks met4 -x_offset 0.46 -x_pitch 0.92 -y_offset 0.46 -y_pitch 0.92";
    assert "make_tracks met4 -x_offset 0.46 -x_pitch 0.92 -y_offset 0.46 -y_pitch 0.92" + "\n" == "make_tracks met4 -x_offset 0.46 -x_pitch 0.92 -y_offset 0.46 -y_pitch 0.92\n";
  }

  lemma ExampleXPart5()
    ensures XPart("met5", Track("1.70", "3.40")) == "make_tracks met5 -x_offset 1.70 -x_pitch 3.40"
  {
    assert "make_tracks " + "met5" == "make_tracks met5";
    assert "make_tracks met5" + " -x_offset " == "make_tracks met5 -x_offset ";
    assert "make_tracks met5 -x_offset " + "1.70" == "make_tracks met5 -x_offset 1.70";
    assert "make_tracks met5 -x_offset 1.70" + " -x_pitch " == "make_tracks met5 -x_offset 1.70 -x_pitch ";
    assert "make_tracks met5 -x_offset 1.70 -x_pitch " + "3.40" == "make_tracks met5 -x_offset 1.70 -x_pitch 3.40";
  }

  lemma ExampleYOffsetPart5()
    ensures YOffsetPart("met5", Track("1.70", "3.40"), Track("1.70", "3.40")) == "make_tracks met5 -x_offset 1.70 -x_pitch 3.40 -y_offset 1.70"
  {
    ExampleXPart5();
    assert "make_tracks met5 -x_offset 1.70 -x_pitch 3.40" + " -y_offset " == "make_tracks met5 -x_offset 1.70 -x_pitch 3.40 -y_offset ";
    assert "make_tracks met5 -x_offset 1.70 -x_pitch 3.40 -y_offset " + "1.70" == "make_tracks met5 -x_offset 1.70 -x_pitch 3.40 -y_offset 1.70";
  }

  lemma ExampleDirective5()
    ensures MakeTracks("met5", Track("1.70", "3.40"), Track("1.70", "3.40")) == "make_tracks met5 -x_offset 1.70 -x_pitch 3.40 -y_offset 1.70 -y_pitch 3.40\n"
  {
    ExampleYOffsetPart5();
    assert "make_tracks met5 -x_offset 1.70 -x_pitch 3.40 -y_offset 1.70" + " -y_pitch " == "make_tracks met5 -x_offset 1.70 -x_pitch 3.40 -y_offset 1.70 -y_pitch ";
    assert "make_tracks met5 -x_offset 1.70 -x_pitch 3.40 -y_offset 1.70 -y_pitch " + "3.40" == "make_tracks met5 -x_offset 1.70 -x_pitch 3.40 -y_offset 1.70 -y_pitch 3.40";
    assert "make_tracks met5 -x_offset 1.70 -x_pitch 3.40 -y_offset 1.70 -y_pitch 3.40" + "\n" == "make_tracks met5 -x_offset 1.70 -x_pitch 3.40 -y_offset 1.70 -y_pitch 3.40\n";
  }

  /** The directives of `specs` are `lines`, one after the other, when each layer yields its line. */
  lemma {:induction false} DirectivesConcat(specs: seq<LayerSpec>, lines: seq<string>)
    requires |lines| == |specs|
    requires forall k :: 0 <= k < |specs| ==> MakeTracks(specs[k].layer, specs[k].x, specs[k].y) == lines[k]
    ensures Directives(specs) == Concat(lines)
    decreases |specs|
  {
    if |specs| > 0 {
      DirectivesConcat(specs[1..], lines[1..]);
    }
  }

  lemma ExampleDirective(k: nat)
    requires k < |ExampleSpecs|
    ensures MakeTracks(ExampleSpecs[k].layer, ExampleSpecs[k].x, ExampleSpecs[k].y) == ExampleOutputLines[k]
  {
    if k == 0 {
      ExampleDirective0();
    } else if k == 1 {
      ExampleDirective1();
    } else if k == 2 {
      ExampleDirective2();
    } else if k == 3 {
      ExampleDirective3();
    } else if k == 4 {
      ExampleDirective4();
    } else {
      ExampleDirective5();
    }
  }

  lemma ExampleDirectives()
    ensures Directives(ExampleSpecs) == ExampleOutput
  {
    forall k | 0 <= k < |ExampleSpecs|
      ensures MakeTracks(ExampleSpecs[k].layer, ExampleSpecs[k].x, ExampleSpecs[k].y) == ExampleOutputLines[k]
    {
      ExampleDirective(k);
    }
    DirectivesConcat(ExampleSpecs, ExampleOutputLines);
  }

  /** The empty line before the first record is blank. */
  lemma EmptyLineIsBlank()
    ensures Avoids("", LineBreaks) && Strip("") == ""
  {
  }

  /** The documented example: its output, exactly. */
  lemma Doctest()
    ensures Transpile(ExampleInput) == Success(ExampleOutput)
  {
    ExampleIsClean();
    ExampleDirectives();
    EmptyLineIsBlank();
    var text := LegacyText(ExampleSpecs);
    LeadingBlankLine("", text);
    EmptyFirstLine(text);
    TranspileLegacy(ExampleSpecs);
  }

  lemma EmptyFirstLine(text: string)
    ensures "" + "\n" + text == "\n" + text
  {
  }
}
