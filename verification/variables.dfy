/**
  Configuration variable declarations as the step tables state them: a name, a
  type, an optional default, PDK scoping and the deprecated names a variable
  still accepts, each with the migration applied to a value found under the
  old name.  Also the two value migrators of openlane/steps/openroad.py:
  `pdn_macro_migrator` and the `PL_TARGET_DENSITY` percentage migration.
*/
module Variables {
  import opened Wrappers
  import opened Strings
  import opened Values
  import Seqs

  /** The declared type of a variable, as far as the tables use them. */
  datatype VarType =
    | Bool
    | Int
    | Decimal
    | Str
    | PathType
    | ListOf(elem: VarType)
    | Optional(inner: VarType)
    | LiteralOf(options: seq<string>)

  /** How a value given under a deprecated name becomes a value of the variable. */
  datatype Migration =
    | Identity    // a plain name in `deprecated_names`
    | Times100    // `lambda d: Decimal(d) * Decimal(100.0)`

  datatype Alias = Alias(name: string, migration: Migration)

  datatype Variable = Variable(
    name: string,
    typ: VarType,
    default: Option<Value>,
    aliases: seq<Alias>,
    pdk: bool)

  /** A non-PDK variable without aliases: the common case of the tables. */
  function Plain(name: string, typ: VarType, default: Option<Value>): Variable {
    Variable(name, typ, default, [], false)
  }

  /** The names of `vars`, in order. */
  function Names(vars: seq<Variable>): (r: seq<string>)
    ensures |r| == |vars| && forall i :: 0 <= i < |vars| ==> r[i] == vars[i].name
  {
    seq(|vars|, i requires 0 <= i < |vars| => vars[i].name)
  }

  lemma NamesAppend(a: seq<Variable>, b: seq<Variable>)
    ensures Names(a + b) == Names(a) + Names(b)
  {
  }

  /**
    `pdn_macro_migrator`: anything but a string is returned as it is; a string
    becomes the list of its comma-separated pieces, each stripped of
    surrounding whitespace (a string without a comma gives one piece).
  */
  function PdnMacroMigrator(x: Value): (r: Value)
  {
    match x
    case VStr(s) =>
      if ',' in s then VList(StrippedPieces(Split(s, {','})))
      else VList([VStr(Strip(s))])
    case _ => x
  }

  function StrippedPieces(pieces: seq<string>): (r: seq<Value>)
    ensures |r| == |pieces| && forall i :: 0 <= i < |pieces| ==> r[i] == VStr(Strip(pieces[i]))
  {
    seq(|pieces|, i requires 0 <= i < |pieces| => VStr(Strip(pieces[i])))
  }

  /**
    Both branches of the migrator agree: a string always yields one element per
    comma-separated piece (one more than its commas), the i-th being the
    stripped i-th piece, and no element has whitespace left to strip.
  */
  lemma {:induction false} PdnMacroMigratorPieces(s: string)
    ensures PdnMacroMigrator(VStr(s)).VList?
    ensures var items := PdnMacroMigrator(VStr(s)).items;
      && |items| == Count(s, {','}) + 1
      && forall i :: 0 <= i < |items| ==>
           && items[i] == VStr(Strip(Split(s, {','})[i]))
           && Strip(items[i].s) == items[i].s
  {
    var pieces := Split(s, {','});
    if ',' !in s {
      SplitAvoiding(s, {','});
    }
    var items := PdnMacroMigrator(VStr(s)).items;
    assert items == StrippedPieces(pieces);
    forall i | 0 <= i < |items|
      ensures Strip(items[i].s) == items[i].s
    {
      StripIdempotent(pieces[i]);
    }
  }

  /** Values that are not strings pass through the migrator unchanged. */
  lemma PdnMacroMigratorKeepsNonStrings(x: Value)
    requires !x.VStr?
    ensures PdnMacroMigrator(x) == x
  {
  }

  /**
    The comma-joined elements of the migrator's list give back the input
    whenever its pieces carry no surrounding whitespace.
  */
  lemma PdnMacroMigratorRoundTrip(s: string)
    requires forall i :: 0 <= i < |Split(s, {','})| ==> Strip(Split(s, {','})[i]) == Split(s, {','})[i]
    ensures var items := PdnMacroMigrator(VStr(s)).items;
      Join(seq(|items|, i requires 0 <= i < |items| => items[i].s), ',') == s
  {
    PdnMacroMigratorPieces(s);
    var pieces := Split(s, {','});
    var items := PdnMacroMigrator(VStr(s)).items;
    var texts := seq(|items|, i requires 0 <= i < |items| => items[i].s);
    assert |texts| == |pieces|;
    forall i | 0 <= i < |texts|
      ensures texts[i] == pieces[i]
    {
      assert items[i] == VStr(Strip(pieces[i]));
    }
    assert texts == pieces;
    JoinSplit(s, ',');
  }

  /**
    `Decimal(d) * Decimal(100.0)`: the migration of the legacy fractional
    target density to a percentage.  None where `Decimal(d)` raises.
  */
  function PercentMigration(d: Value): (r: Option<Value>)
  {
    Times100(PyDecimal(d))
  }

  /** A decimal times 100, where the infinities stay infinite. */
  function Times100(p: Option<Value>): Option<Value> {
    match p
    case Some(VDec(x)) => Some(VDec(x * 100.0))
    case _ => p
  }

  /**
    The migration scales every number by 100, and dividing by 100 restores
    it; the infinities stay as they are, and None and containers make it fail.
  */
  lemma PercentMigrationScales(d: Value)
    ensures d.VDec? ==> PercentMigration(d) == Some(VDec(d.d * 100.0)) && PercentMigration(d).value.d / 100.0 == d.d
    ensures d.VInt? ==> PercentMigration(d) == Some(VDec(d.i as real * 100.0))
    ensures d.VInf? || d.VNegInf? ==> PercentMigration(d) == Some(d)
    ensures d.VNone? || d.VList? || d.VDict? ==> PercentMigration(d).None?
    ensures d.VBool? ==> PercentMigration(d) == Some(VDec(if d.b then 100.0 else 0.0))
  {
  }

  /**
    A string migrates as the decimal `Decimal` reads it: a finite one is
    scaled by 100, an infinity stays, and a string `Decimal` rejects makes
    the migration fail.
  */
  lemma PercentMigrationOfText(s: string)
    ensures forall x :: ParseDecimal(s) == Some(VDec(x)) ==> PercentMigration(VStr(s)) == Some(VDec(x * 100.0))
    ensures ParseDecimal(s) == Some(VInf) ==> PercentMigration(VStr(s)) == Some(VInf)
    ensures ParseDecimal(s) == Some(VNegInf) ==> PercentMigration(VStr(s)) == Some(VNegInf)
    ensures ParseDecimal(s).None? <==> PercentMigration(VStr(s)).None?
  {
    var p := ParseDecimal(s);
    assert PercentMigration(VStr(s)) == Times100(p);
  }

  /** A legacy density written with a negative exponent, such as `"1e-1"`, migrates to its percentage. */
  lemma PercentMigrationOfExponent(m: string, mark: char, d: string)
    requires IsDigitRun(m) && IsDigitRun(d) && mark in ExponentMarks
    ensures PercentMigration(VStr(m + [mark] + "-" + d)) == Some(VDec(DigitsValue(m) as real / Pow10(DigitsValue(d)) * 100.0))
  {
    var x := m + [mark] + "-" + d;
    var q := DigitsValue(m) as real / Pow10(DigitsValue(d));
    ParseDecimalExponent(m, mark, d);
    assert ParseDecimal(x) == Some(VDec(q));
    PercentMigrationOfText(x);
    assert PercentMigration(VStr(x)) == Some(VDec(q * 100.0));
  }

  /** A value under a deprecated name, migrated to the variable's own value. */
  function Migrate(m: Migration, v: Value): Option<Value> {
    match m
    case Identity => Some(v)
    case Times100 => PercentMigration(v)
  }

  /** The variable of `vars` named `name`, the first if several are. */
  function Find(vars: seq<Variable>, name: string): (r: Option<Variable>)
    ensures r.None? <==> name !in Names(vars)
    ensures r.Some? ==> r.value in vars && r.value.name == name
  {
    if |vars| == 0 then None
    else if vars[0].name == name then Some(vars[0])
    else
      assert Names(vars) == [vars[0].name] + Names(vars[1..]);
      Find(vars[1..], name)
  }

  /** Among uniquely named variables, looking a variable's name up finds that variable. */
  lemma {:induction false} FindsDeclared(vars: seq<Variable>, i: nat)
    requires Seqs.Distinct(Names(vars)) && i < |vars|
    ensures Find(vars, vars[i].name) == Some(vars[i])
    decreases i
  {
    if i > 0 {
      assert Names(vars)[0] != Names(vars)[i];
      assert vars[1..][i - 1] == vars[i];
      assert Names(vars[1..]) == Names(vars)[1..];
      FindsDeclared(vars[1..], i - 1);
    }
  }

  /**
    A variable that can never be left without a value: the PDK supplies it,
    its type admits None, or it declares a default.
  */
  predicate Resolves(v: Variable) {
    v.pdk || v.typ.Optional? || v.default.Some?
  }
}
