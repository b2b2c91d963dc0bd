/**
  The shared variable tables of openlane/steps/common_variables.py, as data,
  with the facts the configuration machinery relies on: names are unique, the
  deprecated names are plain renamings of one variable each, every variable
  resolves to a value, and the extended tables extend their bases.
*/
module CommonVariables {
  import opened Wrappers
  import opened Values
  import opened Variables
  import opened Seqs

  const IoLayerVariables: seq<Variable> := [
    Plain("FP_IO_VEXTEND", Decimal, Some(VInt(0))),
    Plain("FP_IO_HEXTEND", Decimal, Some(VInt(0))),
    Plain("FP_IO_VLENGTH", Decimal, Some(VInt(4))),
    Plain("FP_IO_HLENGTH", Decimal, Some(VInt(4))),
    Plain("FP_IO_VTHICKNESS_MULT", Decimal, Some(VInt(2))),
    Plain("FP_IO_HTHICKNESS_MULT", Decimal, Some(VInt(2)))
  ]

  const PdnVariables: seq<Variable> := [
    Plain("FP_PDN_SKIPTRIM", Bool, Some(VBool(false))),
    Plain("FP_PDN_CORE_RING", Bool, Some(VBool(false))),
    Plain("FP_PDN_ENABLE_RAILS", Bool, Some(VBool(true))),
    Plain("FP_PDN_CHECK_NODES", Bool, Some(VBool(true))),
    Plain("FP_PDN_HORIZONTAL_HALO", Decimal, Some(VInt(10))),
    Plain("FP_PDN_VERTICAL_HALO", Decimal, Some(VInt(10))),
    Plain("DESIGN_IS_CORE", Bool, Some(VBool(true))),
    Variable("FP_PDN_RAIL_OFFSET", Decimal, None, [], true),
    Variable("FP_PDN_VWIDTH", Decimal, None, [], true),
    Variable("FP_PDN_HWIDTH", Decimal, None, [], true),
    Variable("FP_PDN_VSPACING", Decimal, None, [], true),
    Variable("FP_PDN_HSPACING", Decimal, None, [], true),
    Variable("FP_PDN_VPITCH", Decimal, None, [], true),
    Variable("FP_PDN_HPITCH", Decimal, None, [], true),
    Variable("FP_PDN_VOFFSET", Decimal, None, [], true),
    Variable("FP_PDN_HOFFSET", Decimal, None, [], true),
    Variable("FP_PDN_CORE_RING_VWIDTH", Decimal, None, [], true),
    Variable("FP_PDN_CORE_RING_HWIDTH", Decimal, None, [], true),
    Variable("FP_PDN_CORE_RING_VSPACING", Decimal, None, [], true),
    Variable("FP_PDN_CORE_RING_HSPACING", Decimal, None, [], true),
    Variable("FP_PDN_CORE_RING_VOFFSET", Decimal, None, [], true),
    Variable("FP_PDN_CORE_RING_HOFFSET", Decimal, None, [], true),
    Variable("FP_PDN_RAIL_LAYER", Str, None, [Alias("FP_PDN_RAILS_LAYER", Identity)], true),
    Variable("FP_PDN_RAIL_WIDTH", Decimal, None, [], true),
    Variable("FP_PDN_HORIZONTAL_LAYER", Str, None, [Alias("FP_PDN_UPPER_LAYER", Identity)], true),
    Variable("FP_PDN_VERTICAL_LAYER", Str, None, [Alias("FP_PDN_LOWER_LAYER", Identity)], true)
  ]

  const RoutingLayerVariables: seq<Variable> := [
    Plain("RT_CLOCK_MIN_LAYER", Optional(Str), None),
    Plain("RT_CLOCK_MAX_LAYER", Optional(Str), None),
    Plain("GRT_ADJUSTMENT", Decimal, Some(VDec(0.3))),
    Plain("GRT_MACRO_EXTENSION", Int, Some(VInt(0)))
  ]

  const DplVariables: seq<Variable> := [
    Plain("PL_OPTIMIZE_MIRRORING", Bool, Some(VBool(true))),
    Plain("PL_MAX_DISPLACEMENT_X", Decimal, Some(VInt(500))),
    Plain("PL_MAX_DISPLACEMENT_Y", Decimal, Some(VInt(100)))
  ]

  /** The variables global routing adds to the routing-layer variables. */
  const GrtOwnVariables: seq<Variable> := [
    Plain("DIODE_PADDING", Optional(Int), None),
    Plain("GRT_ALLOW_CONGESTION", Bool, Some(VBool(false))),
    Variable("GRT_ANTENNA_ITERS", Int, Some(VInt(3)), [Alias("GRT_ANT_ITERS", Identity)], false),
    Plain("GRT_OVERFLOW_ITERS", Int, Some(VInt(50))),
    Variable("GRT_ANTENNA_MARGIN", Int, Some(VInt(10)), [Alias("GRT_ANT_MARGIN", Identity)], false)
  ]

  const GrtVariables: seq<Variable> := RoutingLayerVariables + GrtOwnVariables

  /** The variables the resizer adds to the detailed-placement variables. */
  const RszOwnVariables: seq<Variable> := [
    Variable("RSZ_DONT_TOUCH_RX", Str, Some(VStr("$^")), [Alias("UNBUFFER_NETS", Identity)], false),
    Plain("RSZ_DONT_TOUCH_LIST", Optional(ListOf(Str)), None),
    Variable("RSZ_DONT_USE_CELLS", Optional(ListOf(Str)), None, [Alias("DONT_USE_CELLS", Identity)], false),
    Plain("RSZ_CORNERS", Optional(ListOf(Str)), None)
  ]

  const RszVariables: seq<Variable> := DplVariables + RszOwnVariables


  /** Within `vars`, no two variables share a name. */
  predicate UniqueNames(vars: seq<Variable>) {
    Distinct(Names(vars))
  }

  lemma IoNamesUnique() ensures UniqueNames(IoLayerVariables) {}
  /** Names at positions `[i0, i1)` differ from the later ones at positions `[j0, j1)`. */
  predicate NamesApart(s: seq<string>, i0: nat, i1: nat, j0: nat, j1: nat)
    requires i1 <= |s| && j1 <= |s|
  {
    forall i, j :: i0 <= i < i1 && j0 <= j < j1 && i < j ==> s[i] != s[j]
  }

  /** Four consecutive blocks, each distinct and apart from the later ones, make a distinct sequence. */
  lemma DistinctByBlocks(s: seq<string>, a: nat, b: nat, c: nat)
    requires a <= b <= c <= |s|
    requires NamesApart(s, 0, a, 0, a) && NamesApart(s, a, b, a, b)
    requires NamesApart(s, b, c, b, c) && NamesApart(s, c, |s|, c, |s|)
    requires NamesApart(s, 0, a, a, b) && NamesApart(s, 0, a, b, c) && NamesApart(s, 0, a, c, |s|)
    requires NamesApart(s, a, b, b, c) && NamesApart(s, a, b, c, |s|) && NamesApart(s, b, c, c, |s|)
    ensures Distinct(s)
  {
    forall i, j | 0 <= i < j < |s|
      ensures s[i] != s[j]
    {
      if i < a {
        if j < a {} else if j < b {} else if j < c {} else {}
      } else if i < b {
        if j < b {} else if j < c {} else {}
      } else if i < c {
        if j < c {} else {}
      }
    }
  }

  lemma PdnApartFirst() ensures NamesApart(Names(PdnVariables), 0, 7, 0, 7) {}
  lemma PdnApartFirstSecond() ensures NamesApart(Names(PdnVariables), 0, 7, 7, 13) {}
  lemma PdnApartFirstThird() ensures NamesApart(Names(PdnVariables), 0, 7, 13, 20) {}
  lemma PdnApartFirstFourth() ensures NamesApart(Names(PdnVariables), 0, 7, 20, 26) {}
  lemma PdnApartSecond() ensures NamesApart(Names(PdnVariables), 7, 13, 7, 13) {}
  lemma PdnApartSecondThird() ensures NamesApart(Names(PdnVariables), 7, 13, 13, 20) {}
  lemma PdnApartSecondFourth() ensures NamesApart(Names(PdnVariables), 7, 13, 20, 26) {}
  lemma PdnApartThird() ensures NamesApart(Names(PdnVariables), 13, 20, 13, 20) {}
  lemma PdnApartThirdFourth() ensures NamesApart(Names(PdnVariables), 13, 20, 20, 26) {}
  lemma PdnApartFourth() ensures NamesApart(Names(PdnVariables), 20, 26, 20, 26) {}

  lemma PdnNamesUnique()
    ensures UniqueNames(PdnVariables)
  {
    PdnApartFirst();
    PdnApartFirstSecond();
    PdnApartFirstThird();
    PdnApartFirstFourth();
    PdnApartSecond();
    PdnApartSecondThird();
    PdnApartSecondFourth();
    PdnApartThird();
    PdnApartThirdFourth();
    PdnApartFourth();
    DistinctByBlocks(Names(PdnVariables), 7, 13, 20);
  }
  lemma RoutingNamesUnique() ensures UniqueNames(RoutingLayerVariables) {}
  lemma DplNamesUnique() ensures UniqueNames(DplVariables) {}
  lemma GrtNamesUnique() ensures UniqueNames(GrtVariables) {}
  lemma RszNamesUnique() ensures UniqueNames(RszVariables) {}

  /** `grt_variables` is the routing-layer variables followed by exactly these five. */
  lemma GrtExtendsRouting()
    ensures Names(GrtVariables) == Names(RoutingLayerVariables)
      + ["DIODE_PADDING", "GRT_ALLOW_CONGESTION", "GRT_ANTENNA_ITERS", "GRT_OVERFLOW_ITERS", "GRT_ANTENNA_MARGIN"]
    ensures GrtVariables[..|RoutingLayerVariables|] == RoutingLayerVariables
  {
    NamesAppend(RoutingLayerVariables, GrtOwnVariables);
    GrtOwnNames();
    PrefixOfAppend(RoutingLayerVariables, GrtOwnVariables);
  }

  lemma GrtOwnNames()
    ensures Names(GrtOwnVariables)
      == ["DIODE_PADDING", "GRT_ALLOW_CONGESTION", "GRT_ANTENNA_ITERS", "GRT_OVERFLOW_ITERS", "GRT_ANTENNA_MARGIN"]
  {
  }

  lemma PrefixOfAppend(a: seq<Variable>, b: seq<Variable>)
    ensures (a + b)[..|a|] == a
  {
  }

  /** `rsz_variables` is the detailed-placement variables followed by exactly these four. */
  lemma RszExtendsDpl()
    ensures Names(RszVariables) == Names(DplVariables)
      + ["RSZ_DONT_TOUCH_RX", "RSZ_DONT_TOUCH_LIST", "RSZ_DONT_USE_CELLS", "RSZ_CORNERS"]
    ensures RszVariables[..|DplVariables|] == DplVariables
  {
    NamesAppend(DplVariables, RszOwnVariables);
    RszOwnNames();
    PrefixOfAppend(DplVariables, RszOwnVariables);
  }

  lemma RszOwnNames()
    ensures Names(RszOwnVariables) == ["RSZ_DONT_TOUCH_RX", "RSZ_DONT_TOUCH_LIST", "RSZ_DONT_USE_CELLS", "RSZ_CORNERS"]
  {
  }

  /** A deprecated name together with the variable that accepts it and its migration. */
  datatype Deprecation = Deprecation(alias: string, canonical: string, migration: Migration)

  /** The deprecated names of `vars`, in declaration order. */
  function Deprecations(vars: seq<Variable>): (r: seq<Deprecation>)
  {
    if |vars| == 0 then []
    else
      OwnDeprecations(vars[0]) + Deprecations(vars[1..])
  }

  /** The deprecated names of one variable, each mapped to that variable. */
  function OwnDeprecations(v: Variable): (r: seq<Deprecation>)
    ensures |r| == |v.aliases|
    ensures forall i :: 0 <= i < |r| ==> r[i] == Deprecation(v.aliases[i].name, v.name, v.aliases[i].migration)
  {
    seq(|v.aliases|, i requires 0 <= i < |v.aliases| =>
      Deprecation(v.aliases[i].name, v.name, v.aliases[i].migration))
  }

  lemma {:induction false} DeprecationsAppend(a: seq<Variable>, b: seq<Variable>)
    ensures Deprecations(a + b) == Deprecations(a) + Deprecations(b)
    decreases |a|
  {
    if |a| == 0 {
      assert a + b == b;
    } else {
      assert (a + b)[1..] == a[1..] + b;
      DeprecationsAppend(a[1..], b);
    }
  }

  /** The renamings the power-grid variables accept. */
  const PdnRenamings: seq<Deprecation> := [
    Deprecation("FP_PDN_RAILS_LAYER", "FP_PDN_RAIL_LAYER", Identity),
    Deprecation("FP_PDN_UPPER_LAYER", "FP_PDN_HORIZONTAL_LAYER", Identity),
    Deprecation("FP_PDN_LOWER_LAYER", "FP_PDN_VERTICAL_LAYER", Identity)
  ]

  /** The renamings the global-routing variables accept. */
  const GrtRenamings: seq<Deprecation> := [
    Deprecation("GRT_ANT_ITERS", "GRT_ANTENNA_ITERS", Identity),
    Deprecation("GRT_ANT_MARGIN", "GRT_ANTENNA_MARGIN", Identity)
  ]

  /** The renamings the resizer variables accept. */
  const RszRenamings: seq<Deprecation> := [
    Deprecation("UNBUFFER_NETS", "RSZ_DONT_TOUCH_RX", Identity),
    Deprecation("DONT_USE_CELLS", "RSZ_DONT_USE_CELLS", Identity)
  ]

  /** The renamings the tables accept, all plain (the value carries over unchanged). */
  const Renamings: seq<Deprecation> := PdnRenamings + GrtRenamings + RszRenamings

  lemma DeprecationsSplit(vars: seq<Variable>, k: nat)
    requires k <= |vars|
    ensures Deprecations(vars) == Deprecations(vars[..k]) + Deprecations(vars[k..])
  {
    DeprecationsAppend(vars[..k], vars[k..]);
    assert vars == vars[..k] + vars[k..];
  }

  /** Variables without deprecated names contribute none. */
  lemma {:induction false} NoDeprecations(vars: seq<Variable>)
    requires forall i :: 0 <= i < |vars| ==> vars[i].aliases == []
    ensures Deprecations(vars) == []
    decreases |vars|
  {
    if |vars| > 0 {
      NoDeprecations(vars[1..]);
    }
  }

  lemma IoDeprecations()
    ensures Deprecations(IoLayerVariables) == []
  {
    NoDeprecations(IoLayerVariables);
  }

  lemma PdnDeprecations()
    ensures Deprecations(PdnVariables) == PdnRenamings
  {
    var p := PdnVariables;
    NoDeprecations(p[..22]);
    NoDeprecations(p[26..]);
    assert p[25..][1..] == p[26..];
    assert Deprecations(p[25..]) == PdnRenamings[2..];
    assert p[24..][1..] == p[25..];
    assert Deprecations(p[24..]) == PdnRenamings[1..];
    assert p[23..][1..] == p[24..];
    assert p[22..][1..] == p[23..];
    assert Deprecations(p[22..]) == PdnRenamings;
    DeprecationsSplit(p, 22);
  }

  lemma GrtDeprecations()
    ensures Deprecations(GrtVariables) == GrtRenamings
  {
    var g := GrtOwnVariables;
    NoDeprecations(g[5..]);
    assert g[4..][1..] == g[5..];
    assert Deprecations(g[4..]) == GrtRenamings[1..];
    assert g[3..][1..] == g[4..];
    assert g[2..][1..] == g[3..];
    assert Deprecations(g[2..]) == GrtRenamings;
    NoDeprecations(g[..2]);
    DeprecationsSplit(g, 2);
    NoDeprecations(RoutingLayerVariables);
    DeprecationsAppend(RoutingLayerVariables, g);
  }

  lemma RszDeprecations()
    ensures Deprecations(RszVariables) == RszRenamings
  {
    var r := RszOwnVariables;
    NoDeprecations(DplVariables);
    NoDeprecations(r[3..]);
    assert r[2..][1..] == r[3..];
    assert r[1..][1..] == r[2..];
    DeprecationsAppend(DplVariables, r);
  }

  /** Every renaming carries the value over unchanged. */
  lemma RenamingsArePlain(k: nat)
    requires k < |Renamings|
    ensures Renamings[k].migration == Identity
  {
  }

  /** No two renamings share a deprecated name, so each maps to one variable. */
  lemma RenamingsUnique()
    ensures forall i, j :: 0 <= i < j < |Renamings| ==> Renamings[i].alias != Renamings[j].alias
  {
  }

  /** No deprecated name is the name of a variable of `vars`. */
  predicate NoRenamingShadows(vars: seq<Variable>) {
    forall k, i :: 0 <= k < |Renamings| && 0 <= i < |vars| ==> Renamings[k].alias != vars[i].name
  }

  lemma IoNotShadowed() ensures NoRenamingShadows(IoLayerVariables) {}
  /** No deprecated name is the name of a variable of `vars` at positions `[i0, i1)`. */
  predicate NoRenamingShadowsIn(vars: seq<Variable>, i0: nat, i1: nat)
    requires i1 <= |vars|
  {
    forall k, i :: 0 <= k < |Renamings| && i0 <= i < i1 ==> Renamings[k].alias != vars[i].name
  }

  lemma PdnFirstNotShadowed() ensures NoRenamingShadowsIn(PdnVariables, 0, 7) {}
  lemma PdnSecondNotShadowed() ensures NoRenamingShadowsIn(PdnVariables, 7, 13) {}
  lemma PdnThirdNotShadowed() ensures NoRenamingShadowsIn(PdnVariables, 13, 20) {}
  lemma PdnFourthNotShadowed() ensures NoRenamingShadowsIn(PdnVariables, 20, 26) {}

  lemma PdnNotShadowed()
    ensures NoRenamingShadows(PdnVariables)
  {
    PdnFirstNotShadowed();
    PdnSecondNotShadowed();
    PdnThirdNotShadowed();
    PdnFourthNotShadowed();
    forall k, i | 0 <= k < |Renamings| && 0 <= i < |PdnVariables|
      ensures Renamings[k].alias != PdnVariables[i].name
    {
      if i < 7 {} else if i < 13 {} else if i < 20 {} else {}
    }
  }
  lemma GrtNotShadowed() ensures NoRenamingShadows(GrtVariables) {}
  lemma RszNotShadowed() ensures NoRenamingShadows(RszVariables) {}

  /**
    In these tables a variable declares no default exactly when the PDK
    supplies it or its type admits None, so every variable resolves.
  */
  predicate DefaultsComplete(vars: seq<Variable>) {
    forall i :: 0 <= i < |vars| ==>
      && Resolves(vars[i])
      && (vars[i].default.None? <==> vars[i].pdk || vars[i].typ.Optional?)
  }

  lemma IoDefaultsComplete() ensures DefaultsComplete(IoLayerVariables) {}
  lemma PdnDefaultsComplete() ensures DefaultsComplete(PdnVariables) {}
  lemma GrtDefaultsComplete() ensures DefaultsComplete(GrtVariables) {}
  lemma RszDefaultsComplete() ensures DefaultsComplete(RszVariables) {}

  /** The fixed defaults of global routing. */
  lemma GrtDefaults()
    ensures Find(GrtVariables, "GRT_ANTENNA_ITERS") == Some(GrtVariables[6])
    ensures GrtVariables[6].default == Some(VInt(3))
    ensures Find(GrtVariables, "GRT_OVERFLOW_ITERS") == Some(GrtVariables[7])
    ensures GrtVariables[7].default == Some(VInt(50))
    ensures Find(GrtVariables, "GRT_ANTENNA_MARGIN") == Some(GrtVariables[8])
    ensures GrtVariables[8].default == Some(VInt(10))
  {
    GrtNamesUnique();
    FindsDeclared(GrtVariables, 6);
    FindsDeclared(GrtVariables, 7);
    FindsDeclared(GrtVariables, 8);
  }

  /** The fixed defaults of detailed placement and the resizer. */
  lemma RszDefaults()
    ensures Find(RszVariables, "PL_MAX_DISPLACEMENT_X") == Some(RszVariables[1])
    ensures RszVariables[1].default == Some(VInt(500))
    ensures Find(RszVariables, "PL_MAX_DISPLACEMENT_Y") == Some(RszVariables[2])
    ensures RszVariables[2].default == Some(VInt(100))
    ensures Find(RszVariables, "RSZ_DONT_TOUCH_RX") == Some(RszVariables[3])
    ensures RszVariables[3].default == Some(VStr("$^"))
  {
    RszNamesUnique();
    FindsDeclared(RszVariables, 1);
    FindsDeclared(RszVariables, 2);
    FindsDeclared(RszVariables, 3);
  }
}
