/**
  `Config.__process_variable_list` (openlane/config/config.py): the two legacy
  migrations, the compile loop over permissive then strict variables, and the
  classification of the keys nobody consumed.  `Variable.compile` is not part
  of this model; it is a parameter, and what it reports is taken as given.
*/
module ConfigProcess {
  import opened Wrappers
  import opened Strings
  import opened Values
  import opened Variables

  type Config = map<string, Value>

  /** Python's `d.get(key)`: None for a missing key. */
  function Get(m: Config, key: string): (v: Value)
    ensures key !in m ==> v == VNone
    ensures key in m ==> v == m[key]
  {
    if key in m then m[key] else VNone
  }

  /** The warnings and errors the processing reports, as data rather than text. */
  datatype Diag =
    | DiodeStrategyUnavailable(shown: Value)   // error: the strategy has no successor
    | DiodeStrategyDeprecated                  // warning
    | ExtraSpefsBadType                        // error: neither a string nor a list
    | ExtraSpefsNotQuadruples                  // error: element count not divisible by four
    | ExtraSpefsDeprecated                     // warning
    | ExtraSpefsWithMacros                     // error: both the variable and its successor
    | CompileMessage(text: string)             // reported by `Variable.compile`
    | KeyRemoved(key: string, reason: string)  // warning
    | KeyUnused(key: string)                   // warning: a known variable this flow does not use
    | KeyUnknown(key: string)                  // an error or a warning, depending on the mode

  /** The state the processing threads through: the raw map, the result, and the reports. */
  datatype Outcome = Outcome(mutable: Config, final: Config, warnings: seq<Diag>, errors: seq<Diag>)

  /** An exception the processing does not catch. */
  datatype Crash =
    | ConversionCrash(value: Value)   // `int(x)` raising TypeError or OverflowError
    | MissingKey(key: string)         // `del mutable[key]` raising KeyError

  // ---------------------------------------------------------------------
  // DIODE_INSERTION_STRATEGY

  const DiodeKey: string := "DIODE_INSERTION_STRATEGY"
  const RepairAntennasKey: string := "GRT_REPAIR_ANTENNAS"
  const HeuristicDiodesKey: string := "RUN_HEURISTIC_DIODE_INSERTION"
  const DiodeOnPortsKey: string := "DIODE_ON_PORTS"

  /** The legacy strategies with a successor in the current flow. */
  predicate DiodeStrategyAvailable(n: int) {
    n != 1 && n != 2 && n != 5 && n <= 6
  }

  /** The three flags that replace an available strategy. */
  function DiodeFlags(n: int): Config {
    map[RepairAntennasKey := VBool(n == 3 || n == 6),
        HeuristicDiodesKey := VBool(n == 4 || n == 6),
        DiodeOnPortsKey := VStr(if n == 4 || n == 6 then "in" else "none")]
  }

  /**
    The diode-strategy migration (config.py:844-869): a strategy given as
    anything but None is removed and replaced by the three flags when it has
    a successor, reported as an error when it has none.
  */
  function MigrateDiode(o: Outcome): (r: Result<Outcome, Crash>)
    ensures r.Success? ==> r.value.final == o.final
  {
    if Get(o.mutable, DiodeKey) == VNone then Success(o)
    else
      var raw := o.mutable[DiodeKey];
      var rest := o.mutable - {DiodeKey};
      match PyInt(raw)
      case Unconvertible => Failure(ConversionCrash(raw))
      case NotAnInteger =>
        Success(o.(mutable := rest, errors := o.errors + [DiodeStrategyUnavailable(raw)]))
      case Converted(n) =>
        if !DiodeStrategyAvailable(n) then
          Success(o.(mutable := rest, errors := o.errors + [DiodeStrategyUnavailable(VInt(n))]))
        else
          Success(o.(mutable := rest + DiodeFlags(n), warnings := o.warnings + [DiodeStrategyDeprecated]))
  }

  /**
    Without a strategy nothing happens; with one, the migration crashes
    exactly when `int()` raises something other than ValueError, and
    otherwise removes the strategy and keeps every unrelated key.
  */
  lemma MigrateDiodeRemoves(o: Outcome)
    ensures Get(o.mutable, DiodeKey) == VNone ==> MigrateDiode(o) == Success(o)
    ensures Get(o.mutable, DiodeKey) != VNone ==>
      && (MigrateDiode(o).Failure? <==> PyInt(o.mutable[DiodeKey]).Unconvertible?)
      && (MigrateDiode(o).Success? ==>
           && DiodeKey !in MigrateDiode(o).value.mutable
           && forall k :: k in o.mutable && k != DiodeKey && k !in DiodeFlags(0) ==>
                k in MigrateDiode(o).value.mutable && MigrateDiode(o).value.mutable[k] == o.mutable[k])
  {
    if Get(o.mutable, DiodeKey) != VNone {
      match PyInt(o.mutable[DiodeKey])
      case Unconvertible =>
      case NotAnInteger =>
        RemoveThenAdd(o.mutable, map[]);
      case Converted(n) =>
        if DiodeStrategyAvailable(n) {
          FlagKeys(n);
          RemoveThenAdd(o.mutable, DiodeFlags(n));
        } else {
          RemoveThenAdd(o.mutable, map[]);
        }
    }
  }

  /** The flags are the same three keys whatever the strategy, none of them the strategy's own. */
  lemma FlagKeys(n: int)
    ensures DiodeFlags(n).Keys == DiodeFlags(0).Keys && DiodeKey !in DiodeFlags(n)
  {
  }

  /** Removing the strategy and adding `extra` keeps every other key `extra` does not set. */
  lemma RemoveThenAdd(m: Config, extra: Config)
    requires DiodeKey !in extra
    ensures DiodeKey !in (m - {DiodeKey}) + extra
    ensures forall k :: k in m && k != DiodeKey && k !in extra ==>
      k in (m - {DiodeKey}) + extra && ((m - {DiodeKey}) + extra)[k] == m[k]
  {
  }

  /** A strategy with a successor warns once and sets the flags as the migration guide says. */
  lemma MigrateDiodeAvailable(o: Outcome, n: int)
    requires Get(o.mutable, DiodeKey) != VNone && PyInt(o.mutable[DiodeKey]) == Converted(n)
    requires DiodeStrategyAvailable(n)
    ensures MigrateDiode(o).Success?
    ensures var r := MigrateDiode(o).value;
      && r.errors == o.errors
      && r.warnings == o.warnings + [DiodeStrategyDeprecated]
      && (r.mutable[RepairAntennasKey] == VBool(true) <==> n == 3 || n == 6)
      && (r.mutable[HeuristicDiodesKey] == VBool(true) <==> n == 4 || n == 6)
      && (r.mutable[DiodeOnPortsKey] == VStr("in") <==> n == 4 || n == 6)
      && (r.mutable[DiodeOnPortsKey] == VStr("none") <==> n != 4 && n != 6)
  {
    var m := (o.mutable - {DiodeKey}) + DiodeFlags(n);
    assert MigrateDiode(o) == Success(o.(mutable := m, warnings := o.warnings + [DiodeStrategyDeprecated]));
    FlagsAfter(o.mutable, n);
  }

  /** After the migration the three flags hold the values the strategy maps to. */
  lemma FlagsAfter(m: Config, n: int)
    ensures var r := (m - {DiodeKey}) + DiodeFlags(n);
      && RepairAntennasKey in r && r[RepairAntennasKey] == VBool(n == 3 || n == 6)
      && HeuristicDiodesKey in r && r[HeuristicDiodesKey] == VBool(n == 4 || n == 6)
      && DiodeOnPortsKey in r && r[DiodeOnPortsKey] == VStr(if n == 4 || n == 6 then "in" else "none")
  {
  }

  /** A strategy that is no integer, or has no successor, is one error and changes nothing else. */
  lemma MigrateDiodeUnavailable(o: Outcome)
    requires Get(o.mutable, DiodeKey) != VNone
    requires var c := PyInt(o.mutable[DiodeKey]);
      c.NotAnInteger? || (c.Converted? && !DiodeStrategyAvailable(c.n))
    ensures MigrateDiode(o).Success?
    ensures var r := MigrateDiode(o).value;
      && r.warnings == o.warnings
      && |r.errors| == |o.errors| + 1 && r.errors[..|o.errors|] == o.errors
      && r.errors[|o.errors|].DiodeStrategyUnavailable?
      && r.mutable == o.mutable - {DiodeKey}
  {
  }

  /** Migrating twice migrates once: the first run removes the strategy. */
  lemma MigrateDiodeIdempotent(o: Outcome)
    requires MigrateDiode(o).Success?
    ensures MigrateDiode(MigrateDiode(o).value) == MigrateDiode(o)
  {
    MigrateDiodeRemoves(o);
    var once := MigrateDiode(o).value;
    assert Get(o.mutable, DiodeKey) != VNone ==> DiodeKey !in once.mutable;
    assert Get(once.mutable, DiodeKey) == VNone;
  }

  // ---------------------------------------------------------------------
  // EXTRA_SPEFS

  const ExtraSpefsKey: string := "EXTRA_SPEFS"
  const MacrosKey: string := "MACROS"

  /** The placeholder path a migrated macro gets for its GDS and LEF views. */
  const DummyPath: string := "__openlane_dummy_path"

  /**
    The dictionary key a module entry becomes.  Module names are strings in
    every well-formed configuration; integers and the other scalars key by
    the text Python's `str()` gives them.
  */
  function ModuleKey(v: Value): string {
    match v
    case VStr(s) => s
    case VInt(i) => IntToString(i)
    case VBool(b) => if b then "True" else "False"
    case VNone => "None"
    case _ => ""
  }

  /** The macro one quadruple `module min nom max` describes. */
  function MacroOf(min: Value, nom: Value, max: Value): Value {
    VDict(map[
      "gds" := VList([VStr(DummyPath)]),
      "lef" := VList([VStr(DummyPath)]),
      "spef" := VDict(map["min_*" := VList([min]), "nom_*" := VList([nom]), "max_*" := VList([max])])])
  }

  /** The macros of the first `n` quadruples of `items`; a later module overwrites an earlier one. */
  function MacrosOf(items: seq<Value>, n: nat): (m: map<string, Value>)
    requires 4 * n <= |items|
    decreases n
  {
    if n == 0 then map[]
    else
      var s := 4 * (n - 1);
      MacrosOf(items, n - 1)[ModuleKey(items[s]) := MacroOf(items[s + 1], items[s + 2], items[s + 3])]
  }

  /** One macro per module named by a quadruple, and no other. */
  lemma {:induction false} MacrosOfKeys(items: seq<Value>, n: nat)
    requires 4 * n <= |items|
    ensures MacrosOf(items, n).Keys == set i | 0 <= i < n :: ModuleKey(items[4 * i])
    decreases n
  {
    if n > 0 {
      MacrosOfKeys(items, n - 1);
      var s := 4 * (n - 1);
      assert (set i | 0 <= i < n :: ModuleKey(items[4 * i]))
        == (set i | 0 <= i < n - 1 :: ModuleKey(items[4 * i])) + {ModuleKey(items[s])};
    }
  }

  /** Each module's macro comes from the last quadruple naming it. */
  lemma {:induction false} MacrosOfLast(items: seq<Value>, n: nat, i: nat)
    requires 4 * n <= |items| && i < n
    requires forall j :: i < j < n ==> ModuleKey(items[4 * j]) != ModuleKey(items[4 * i])
    ensures ModuleKey(items[4 * i]) in MacrosOf(items, n)
    ensures MacrosOf(items, n)[ModuleKey(items[4 * i])]
      == MacroOf(items[4 * i + 1], items[4 * i + 2], items[4 * i + 3])
    decreases n
  {
    if i < n - 1 {
      MacrosOfLast(items, n - 1, i);
    }
  }

  /** The pieces of a string split at single spaces, as `split(" ")` gives them. */
  function SpaceSeparated(s: string): (r: seq<Value>)
    ensures |r| == Count(s, {' '}) + 1
    ensures forall i :: 0 <= i < |r| ==> r[i] == VStr(Split(s, {' '})[i])
  {
    var pieces := Split(s, {' '});
    seq(|pieces|, i requires 0 <= i < |pieces| => VStr(pieces[i]))
  }

  /**
    The `EXTRA_SPEFS` migration (config.py:871-915).  With `EXTRA_SPEFS` set
    and `MACROS` unset, `MACROS` becomes a dictionary (empty on error) and
    `EXTRA_SPEFS` is removed; a string is split at spaces; what is then no
    list, or a list whose length is not a multiple of four, is an error;
    otherwise each quadruple `module min nom max` becomes one macro.  With
    both set it is an error and nothing changes.
  */
  function MigrateExtraSpefs(o: Outcome): (r: Outcome)
    ensures r.final == o.final
    ensures Get(o.mutable, ExtraSpefsKey) == VNone ==> r == o
    ensures Get(o.mutable, ExtraSpefsKey) != VNone && Get(o.mutable, MacrosKey) != VNone ==>
      r == o.(errors := o.errors + [ExtraSpefsWithMacros])
    ensures Get(o.mutable, ExtraSpefsKey) != VNone && Get(o.mutable, MacrosKey) == VNone ==>
      && ExtraSpefsKey !in r.mutable
      && MacrosKey in r.mutable && r.mutable[MacrosKey].VDict?
      && r.mutable.Keys == o.mutable.Keys - {ExtraSpefsKey} + {MacrosKey}
      && (forall k :: k in o.mutable && k != ExtraSpefsKey && k != MacrosKey ==> r.mutable[k] == o.mutable[k])
      && var raw := o.mutable[ExtraSpefsKey];
         var list := if raw.VStr? then VList(SpaceSeparated(raw.s)) else raw;
         if list.VList? && |list.items| % 4 == 0 then
           && r.errors == o.errors && r.warnings == o.warnings + [ExtraSpefsDeprecated]
           && r.mutable[MacrosKey] == VDict(MacrosOf(list.items, |list.items| / 4))
         else
           && r.warnings == o.warnings
           && r.errors == o.errors + [if list.VList? then ExtraSpefsNotQuadruples else ExtraSpefsBadType]
           && r.mutable[MacrosKey] == VDict(map[])
  {
    var spefs := Get(o.mutable, ExtraSpefsKey);
    if spefs != VNone && Get(o.mutable, MacrosKey) == VNone then
      var rest := (o.mutable - {ExtraSpefsKey})[MacrosKey := VDict(map[])];
      var list := if spefs.VStr? then VList(SpaceSeparated(spefs.s)) else spefs;
      if !list.VList? then
        o.(mutable := rest, errors := o.errors + [ExtraSpefsBadType])
      else if |list.items| % 4 != 0 then
        o.(mutable := rest, errors := o.errors + [ExtraSpefsNotQuadruples])
      else
        var macros := MacrosOf(list.items, |list.items| / 4);
        o.(mutable := rest[MacrosKey := VDict(macros)], warnings := o.warnings + [ExtraSpefsDeprecated])
    else if spefs != VNone then
      o.(errors := o.errors + [ExtraSpefsWithMacros])
    else o
  }

  /** A macro's parasitics views are exactly the `min_*`, `nom_*` and `max_*` entries, each a one-element list. */
  lemma MacroViews(min: Value, nom: Value, max: Value)
    ensures MacroOf(min, nom, max).entries.Keys == {"gds", "lef", "spef"}
    ensures MacroOf(min, nom, max).entries["spef"]
      == VDict(map["min_*" := VList([min]), "nom_*" := VList([nom]), "max_*" := VList([max])])
    ensures MacroOf(min, nom, max).entries["spef"].entries.Keys == {"min_*", "nom_*", "max_*"}
  {
  }

  /**
    The migrated `MACROS` has one macro per module the quadruples name, and a
    module named once gets the parasitics views of its quadruple.
  */
  lemma ExtraSpefsMacros(o: Outcome, i: nat)
    requires Get(o.mutable, ExtraSpefsKey).VList? && Get(o.mutable, MacrosKey) == VNone
    requires var items := o.mutable[ExtraSpefsKey].items;
      && |items| % 4 == 0 && i < |items| / 4
      && forall j :: i < j < |items| / 4 ==> ModuleKey(items[4 * j]) != ModuleKey(items[4 * i])
    ensures var items := o.mutable[ExtraSpefsKey].items;
      var macros := MigrateExtraSpefs(o).mutable[MacrosKey];
      && macros.VDict?
      && macros.entries.Keys == (set j | 0 <= j < |items| / 4 :: ModuleKey(items[4 * j]))
      && macros.entries[ModuleKey(items[4 * i])] == MacroOf(items[4 * i + 1], items[4 * i + 2], items[4 * i + 3])
  {
    var items := o.mutable[ExtraSpefsKey].items;
    MacrosOfKeys(items, |items| / 4);
    MacrosOfLast(items, |items| / 4, i);
  }

  /** After a migration that did not find both variables set, a second run changes nothing. */
  lemma MigrateExtraSpefsIdempotent(o: Outcome)
    requires Get(o.mutable, ExtraSpefsKey) == VNone || Get(o.mutable, MacrosKey) == VNone
    ensures MigrateExtraSpefs(MigrateExtraSpefs(o)) == MigrateExtraSpefs(o)
  {
  }

  // ---------------------------------------------------------------------
  // The compile loop (config.py:917-947)

  /**
    What `Variable.compile` reports for one variable: the value and the key it
    was read from (None when nothing in the raw map supplied it), or the
    message of the ValueError it raised; either way, the warnings it appended.
  */
  datatype Compiled =
    | Compiled(key: Option<string>, value: Value, notes: seq<string>)
    | CompileFailed(message: string, notes: seq<string>)

  /** `Variable.compile(mutable_config, values_so_far, permissive_typing)`, whose body is not modelled. */
  type Compiler = (Variable, Config, Config, bool) -> Compiled

  function Notes(texts: seq<string>): (r: seq<Diag>)
    ensures |r| == |texts| && forall i :: 0 <= i < |texts| ==> r[i] == CompileMessage(texts[i])
  {
    seq(|texts|, i requires 0 <= i < |texts| => CompileMessage(texts[i]))
  }

  /**
    One iteration of the loop: the key compile consumed is deleted (KeyError
    if it is no longer there), the value is recorded under the variable's
    name, a failure becomes an error, and in every case the variable's own
    name leaves the raw map.
  */
  function CompileOne(compile: Compiler, permissive: bool, o: Outcome, v: Variable): Result<Outcome, Crash> {
    match compile(v, o.mutable, o.final, permissive)
    case Compiled(key, value, notes) =>
      if key.Some? && key.value !in o.mutable then Failure(MissingKey(key.value))
      else
        var consumed := if key.Some? then o.mutable - {key.value} else o.mutable;
        Success(Outcome(consumed - {v.name}, o.final[v.name := value], o.warnings + Notes(notes), o.errors))
    case CompileFailed(message, notes) =>
      Success(Outcome(o.mutable - {v.name}, o.final, o.warnings + Notes(notes), o.errors + [CompileMessage(message)]))
  }

  /** The loop over `vars`, in order; an uncaught exception ends it. */
  function CompileAll(compile: Compiler, permissive: bool, o: Outcome, vars: seq<Variable>): Result<Outcome, Crash>
    decreases |vars|
  {
    if |vars| == 0 then Success(o)
    else
      match CompileOne(compile, permissive, o, vars[0])
      case Failure(c) => Failure(c)
      case Success(next) => CompileAll(compile, permissive, next, vars[1..])
  }

  /** `after` keeps some of the keys of `before`, with their values. */
  predicate Shrinks(before: Config, after: Config) {
    after.Keys <= before.Keys && forall k :: k in after ==> after[k] == before[k]
  }

  predicate AllCompileMessages(ds: seq<Diag>) {
    forall i :: 0 <= i < |ds| ==> ds[i].CompileMessage?
  }

  /**
    What the loop guarantees between `o` and the state `r` after the variables
    `done`: the raw map only loses keys, and none of the names of `done` is
    left in it; the reports only grow, by messages of `Variable.compile`;
    `final` gains only names of `done`, keeps every other entry, and, when no
    error was added, holds every name of `done`.
  */
  predicate LoopStep(o: Outcome, r: Outcome, done: seq<Variable>) {
    && Shrinks(o.mutable, r.mutable)
    && (forall i :: 0 <= i < |done| ==> done[i].name !in r.mutable)
    && o.warnings <= r.warnings && AllCompileMessages(r.warnings[|o.warnings|..])
    && o.errors <= r.errors && AllCompileMessages(r.errors[|o.errors|..])
    && (forall k :: k in r.final ==> k in o.final || k in Names(done))
    && (forall k :: k in o.final && k !in Names(done) ==> k in r.final && r.final[k] == o.final[k])
    && (|r.errors| == |o.errors| ==> forall i :: 0 <= i < |done| ==> done[i].name in r.final)
  }

  /**
    One iteration crashes exactly when compile names a consumed key that is
    gone; otherwise a success records the value compile gave, and a failure
    records one error and no value.
  */
  lemma CompileOneEffect(compile: Compiler, permissive: bool, o: Outcome, v: Variable)
    ensures var c := compile(v, o.mutable, o.final, permissive);
      && (CompileOne(compile, permissive, o, v).Failure? <==> c.Compiled? && c.key.Some? && c.key.value !in o.mutable)
      && (c.Compiled? && CompileOne(compile, permissive, o, v).Success? ==>
            && CompileOne(compile, permissive, o, v).value.final[v.name] == c.value
            && CompileOne(compile, permissive, o, v).value.errors == o.errors
            && (c.key.Some? ==> c.key.value !in CompileOne(compile, permissive, o, v).value.mutable))
      && (c.CompileFailed? ==>
            && CompileOne(compile, permissive, o, v).value.final == o.final
            && CompileOne(compile, permissive, o, v).value.errors == o.errors + [CompileMessage(c.message)])
  {
  }

  lemma CompileOneStep(compile: Compiler, permissive: bool, o: Outcome, v: Variable)
    requires CompileOne(compile, permissive, o, v).Success?
    ensures LoopStep(o, CompileOne(compile, permissive, o, v).value, [v])
  {
    var r := CompileOne(compile, permissive, o, v).value;
    assert Names([v]) == [v.name];
    assert r.warnings[|o.warnings|..] == Notes(compile(v, o.mutable, o.final, permissive).notes);
  }

  lemma LoopStepCompose(a: Outcome, b: Outcome, c: Outcome, d1: seq<Variable>, d2: seq<Variable>)
    requires LoopStep(a, b, d1) && LoopStep(b, c, d2)
    ensures LoopStep(a, c, d1 + d2)
  {
    NamesAppend(d1, d2);
    assert c.warnings[|a.warnings|..] == b.warnings[|a.warnings|..] + c.warnings[|b.warnings|..];
    assert c.errors[|a.errors|..] == b.errors[|a.errors|..] + c.errors[|b.errors|..];
    var d := d1 + d2;
    forall i | 0 <= i < |d|
      ensures d[i].name !in c.mutable
    {
      if i >= |d1| {
        assert d[i] == d2[i - |d1|];
      }
    }
    if |c.errors| == |a.errors| {
      forall i | 0 <= i < |d|
        ensures d[i].name in c.final
      {
        if i < |d1| {
          if d[i].name !in Names(d2) {
            assert d[i].name in b.final;
          } else {
            var j :| 0 <= j < |d2| && Names(d2)[j] == d[i].name;
            assert d2[j].name in c.final;
          }
        } else {
          assert d[i] == d2[i - |d1|];
        }
      }
    }
  }

  /** The loop keeps `LoopStep` over all the variables it processes. */
  lemma {:induction false} CompileAllLoop(compile: Compiler, permissive: bool, o: Outcome, vars: seq<Variable>)
    requires CompileAll(compile, permissive, o, vars).Success?
    ensures LoopStep(o, CompileAll(compile, permissive, o, vars).value, vars)
    decreases |vars|
  {
    if |vars| == 0 {
      assert o.warnings[|o.warnings|..] == [] && o.errors[|o.errors|..] == [];
    } else {
      var next := CompileOne(compile, permissive, o, vars[0]).value;
      CompileOneStep(compile, permissive, o, vars[0]);
      CompileAllLoop(compile, permissive, next, vars[1..]);
      LoopStepCompose(o, next, CompileAll(compile, permissive, o, vars).value, [vars[0]], vars[1..]);
      assert [vars[0]] + vars[1..] == vars;
    }
  }

  // ---------------------------------------------------------------------
  // Leftover keys (config.py:949-974)

  /** The `on_unknown_key` argument: "error", "warn" or None. */
  datatype UnknownKeyPolicy = ErrorOnUnknown | WarnOnUnknown | IgnoreUnknown

  /** Keys that are never reported: option-like keys and comment keys. */
  predicate Ignorable(key: string) {
    Contains(key, "_OPT") || StartsWith(key, "//") || StartsWith(key, "#")
  }

  datatype Reports = Reports(warnings: seq<Diag>, errors: seq<Diag>)

  /** The key a leftover-key report is about. */
  function ReportedKey(d: Diag): string {
    match d
    case KeyRemoved(key, _) => key
    case KeyUnused(key) => key
    case KeyUnknown(key) => key
    case _ => ""
  }

  /** The report for one key nobody consumed: at most one diagnostic, about that key. */
  function ClassifyKey(key: string, special: set<string>, removed: map<string, string>, known: set<string>,
                       policy: UnknownKeyPolicy): (r: Reports)
    ensures |r.warnings| + |r.errors| <= 1
    ensures forall i :: 0 <= i < |r.warnings| ==> ReportedKey(r.warnings[i]) == key
    ensures forall i :: 0 <= i < |r.errors| ==> r.errors[i] == KeyUnknown(key)
  {
    if key in special then Reports([], [])
    else if key in removed then Reports([KeyRemoved(key, removed[key])], [])
    else if Ignorable(key) then Reports([], [])
    else if policy == IgnoreUnknown then Reports([], [])
    else if key in known then Reports([KeyUnused(key)], [])
    else if policy == ErrorOnUnknown then Reports([], [KeyUnknown(key)])
    else Reports([KeyUnknown(key)], [])
  }

  /** The reports for `keys`, in the order of `keys`: at most one per key, each about one of them. */
  function Classify(keys: seq<string>, special: set<string>, removed: map<string, string>, known: set<string>,
                    policy: UnknownKeyPolicy): (r: Reports)
    ensures |r.warnings| + |r.errors| <= |keys|
    ensures forall i :: 0 <= i < |r.warnings| ==> ReportedKey(r.warnings[i]) in keys
    ensures forall i :: 0 <= i < |r.errors| ==> r.errors[i].KeyUnknown? && ReportedKey(r.errors[i]) in keys
    decreases |keys|
  {
    if |keys| == 0 then Reports([], [])
    else
      var init := keys[..|keys| - 1];
      var prev := Classify(init, special, removed, known, policy);
      var last := ClassifyKey(keys[|keys| - 1], special, removed, known, policy);
      assert forall k :: k in init ==> k in keys;
      Reports(prev.warnings + last.warnings, prev.errors + last.errors)
  }

  /** A key is reported as unused or unknown only if it is not special, removed or ignorable and the policy is not None. */
  predicate Reportable(key: string, special: set<string>, removed: map<string, string>, policy: UnknownKeyPolicy) {
    key !in special && key !in removed && !Ignorable(key) && policy != IgnoreUnknown
  }

  /** A removed key warns with its reason whatever the policy, unless it is special. */
  lemma {:induction false} ClassifyRemoved(keys: seq<string>, special: set<string>, removed: map<string, string>,
                                           known: set<string>, policy: UnknownKeyPolicy)
    ensures forall k, why :: KeyRemoved(k, why) in Classify(keys, special, removed, known, policy).warnings <==>
      k in keys && k !in special && k in removed && why == removed[k]
    decreases |keys|
  {
    if |keys| > 0 {
      var init := keys[..|keys| - 1];
      ClassifyRemoved(init, special, removed, known, policy);
      assert keys == init + [keys[|keys| - 1]];
    }
  }

  /** A reportable key the flow knows of warns as unused. */
  lemma {:induction false} ClassifyUnused(keys: seq<string>, special: set<string>, removed: map<string, string>,
                                          known: set<string>, policy: UnknownKeyPolicy)
    ensures forall k :: KeyUnused(k) in Classify(keys, special, removed, known, policy).warnings <==>
      k in keys && Reportable(k, special, removed, policy) && k in known
    decreases |keys|
  {
    if |keys| > 0 {
      var init := keys[..|keys| - 1];
      ClassifyUnused(init, special, removed, known, policy);
      assert keys == init + [keys[|keys| - 1]];
    }
  }

  /** The reports for a non-empty run of keys: those for all but the last, then the last's. */
  lemma ClassifySnoc(keys: seq<string>, special: set<string>, removed: map<string, string>, known: set<string>,
                     policy: UnknownKeyPolicy)
    requires |keys| > 0
    ensures var prev := Classify(keys[..|keys| - 1], special, removed, known, policy);
      var last := ClassifyKey(keys[|keys| - 1], special, removed, known, policy);
      Classify(keys, special, removed, known, policy) == Reports(prev.warnings + last.warnings, prev.errors + last.errors)
  {
  }

  /** One key is reported as unknown exactly when it is reportable and not known, in the list the policy picks. */
  lemma ClassifyKeyUnknown(key: string, special: set<string>, removed: map<string, string>, known: set<string>,
                           policy: UnknownKeyPolicy)
    ensures var r := ClassifyKey(key, special, removed, known, policy);
      && (forall k :: KeyUnknown(k) in r.warnings <==>
            k == key && Reportable(k, special, removed, policy) && k !in known && policy == WarnOnUnknown)
      && (forall k :: KeyUnknown(k) in r.errors <==>
            k == key && Reportable(k, special, removed, policy) && k !in known && policy == ErrorOnUnknown)
  {
  }

  /** A reportable unknown key is an error under "error" and a warning under "warn". */
  lemma {:induction false} ClassifyUnknown(keys: seq<string>, special: set<string>, removed: map<string, string>,
                                           known: set<string>, policy: UnknownKeyPolicy)
    ensures var r := Classify(keys, special, removed, known, policy);
      && (forall k :: KeyUnknown(k) in r.warnings <==>
            k in keys && Reportable(k, special, removed, policy) && k !in known && policy == WarnOnUnknown)
      && (forall k :: KeyUnknown(k) in r.errors <==>
            k in keys && Reportable(k, special, removed, policy) && k !in known && policy == ErrorOnUnknown)
    decreases |keys|
  {
    if |keys| > 0 {
      var init := keys[..|keys| - 1];
      ClassifyUnknown(init, special, removed, known, policy);
      ClassifySnoc(keys, special, removed, known, policy);
      ClassifyKeyUnknown(keys[|keys| - 1], special, removed, known, policy);
      assert keys == init + [keys[|keys| - 1]];
    }
  }

  /** Strictly ascending strings. */
  predicate Ascending(ks: seq<string>) {
    forall i, j :: 0 <= i < j < |ks| ==> Below(ks[i], ks[j]) && ks[i] != ks[j]
  }

  /** The keys the reports `ds` are about, in order. */
  function KeysOf(ds: seq<Diag>): (ks: seq<string>)
    ensures |ks| == |ds| && forall i :: 0 <= i < |ds| ==> ks[i] == ReportedKey(ds[i])
  {
    seq(|ds|, i requires 0 <= i < |ds| => ReportedKey(ds[i]))
  }

  lemma KeysOfAppend(a: seq<Diag>, b: seq<Diag>)
    ensures KeysOf(a + b) == KeysOf(a) + KeysOf(b)
  {
  }

  lemma AscendingExtend(ks: seq<string>, tail: seq<string>, x: string)
    requires Ascending(ks) && |tail| <= 1 && (forall i :: 0 <= i < |tail| ==> tail[i] == x)
    requires forall i :: 0 <= i < |ks| ==> Below(ks[i], x) && ks[i] != x
    ensures Ascending(ks + tail)
  {
  }

  /** In ascending keys, all but the last are ascending, and each is below the last. */
  lemma AscendingLast(keys: seq<string>, init: seq<string>)
    requires Ascending(keys) && |keys| > 0 && init == keys[..|keys| - 1]
    ensures Ascending(init)
    ensures forall k :: k in init ==> Below(k, keys[|keys| - 1]) && k != keys[|keys| - 1]
  {
    var n := |keys| - 1;
    forall k | k in init
      ensures Below(k, keys[n]) && k != keys[n]
    {
      var j :| 0 <= j < n && init[j] == k;
      assert keys[j] == k;
    }
  }

  /** The reports of one list extended by the report of a key above all of them stay ascending. */
  lemma ReportsExtend(prev: seq<Diag>, last: seq<Diag>, key: string, keys: seq<string>)
    requires Ascending(KeysOf(prev)) && |last| <= 1
    requires forall i :: 0 <= i < |last| ==> ReportedKey(last[i]) == key
    requires forall i :: 0 <= i < |prev| ==> ReportedKey(prev[i]) in keys
    requires forall k :: k in keys ==> Below(k, key) && k != key
    ensures Ascending(KeysOf(prev + last))
  {
    KeysOfAppend(prev, last);
    AscendingExtend(KeysOf(prev), KeysOf(last), key);
  }

  /** Reports about keys below `key`, ascending, stay ascending once a report about `key` follows. */
  lemma OrderedStep(prev: Reports, last: Reports, key: string, init: seq<string>)
    requires Ascending(KeysOf(prev.warnings)) && Ascending(KeysOf(prev.errors))
    requires |last.warnings| + |last.errors| <= 1
    requires forall i :: 0 <= i < |last.warnings| ==> ReportedKey(last.warnings[i]) == key
    requires forall i :: 0 <= i < |last.errors| ==> ReportedKey(last.errors[i]) == key
    requires forall i :: 0 <= i < |prev.warnings| ==> ReportedKey(prev.warnings[i]) in init
    requires forall i :: 0 <= i < |prev.errors| ==> ReportedKey(prev.errors[i]) in init
    requires forall k :: k in init ==> Below(k, key) && k != key
    ensures Ascending(KeysOf(prev.warnings + last.warnings)) && Ascending(KeysOf(prev.errors + last.errors))
  {
    ReportsExtend(prev.warnings, last.warnings, key, init);
    ReportsExtend(prev.errors, last.errors, key, init);
  }

  /** Reports follow the order of the keys: for sorted keys, they are sorted by key too. */
  lemma {:induction false} ClassifyOrdered(keys: seq<string>, special: set<string>, removed: map<string, string>,
                                           known: set<string>, policy: UnknownKeyPolicy)
    requires Ascending(keys)
    ensures var r := Classify(keys, special, removed, known, policy);
      Ascending(KeysOf(r.warnings)) && Ascending(KeysOf(r.errors))
    decreases |keys|
  {
    if |keys| > 0 {
      var n := |keys| - 1;
      var init := keys[..n];
      AscendingLast(keys, init);
      ClassifyOrdered(init, special, removed, known, policy);
      var prev := Classify(init, special, removed, known, policy);
      var last := ClassifyKey(keys[n], special, removed, known, policy);
      ClassifySnoc(keys, special, removed, known, policy);
      OrderedStep(prev, last, keys[n], init);
    }
  }

  // ---------------------------------------------------------------------
  // The whole processing (config.py:814-976)

  /** What `__process_variable_list` returns: the processed values and the reports. */
  datatype Processed = Processed(final: Config, warnings: seq<Diag>, errors: seq<Diag>)

  /** The two migrations, then the loop over the permissive variables, then the loop over the strict ones. */
  function CompileStages(compile: Compiler, raw: Config, permissive: seq<Variable>, strict: seq<Variable>)
    : Result<Outcome, Crash>
  {
    var diode :- MigrateDiode(Outcome(raw, map[], [], []));
    var loose :- CompileAll(compile, true, MigrateExtraSpefs(diode), permissive);
    CompileAll(compile, false, loose, strict)
  }

  /**
    The whole processing: the compile stages, then the classification of the
    keys nobody consumed, in sorted order.  `special` stands for the
    preprocessor's keys, `known` for every variable name any step declares.
  */
  function Process(compile: Compiler, raw: Config, permissive: seq<Variable>, strict: seq<Variable>,
                   removed: map<string, string>, special: set<string>, known: set<string>,
                   policy: UnknownKeyPolicy): Result<Processed, Crash>
  {
    var done :- CompileStages(compile, raw, permissive, strict);
    var leftover := Classify(SortedKeys(done.mutable.Keys), special, removed, known, policy);
    Success(Processed(done.final, done.warnings + leftover.warnings, done.errors + leftover.errors))
  }

  predicate NoUnknownKeyErrors(ds: seq<Diag>) {
    forall i :: 0 <= i < |ds| ==> !ds[i].KeyUnknown?
  }

  /** The migrations report no unknown keys. */
  lemma DiodeReportsNoKeys(o: Outcome)
    requires NoUnknownKeyErrors(o.errors) && MigrateDiode(o).Success?
    ensures NoUnknownKeyErrors(MigrateDiode(o).value.errors)
  {
    if Get(o.mutable, DiodeKey) != VNone {
      match PyInt(o.mutable[DiodeKey])
      case Unconvertible =>
      case NotAnInteger =>
      case Converted(n) =>
    }
  }

  lemma ExtraSpefsReportsNoKeys(o: Outcome)
    requires NoUnknownKeyErrors(o.errors)
    ensures NoUnknownKeyErrors(MigrateExtraSpefs(o).errors)
  {
    var spefs := Get(o.mutable, ExtraSpefsKey);
    if spefs != VNone && Get(o.mutable, MacrosKey) == VNone {
      var list := if spefs.VStr? then VList(SpaceSeparated(spefs.s)) else spefs;
      if list.VList? && |list.items| % 4 == 0 {
        assert MigrateExtraSpefs(o).errors == o.errors;
      }
    }
  }

  /**
    After the compile stages: no unknown-key report yet; with no error,
    every variable has a processed value; no other key has
    one; and no variable's name is left in the raw map.
  */
  lemma CompileStagesResult(compile: Compiler, raw: Config, permissive: seq<Variable>, strict: seq<Variable>)
    requires CompileStages(compile, raw, permissive, strict).Success?
    ensures var done := CompileStages(compile, raw, permissive, strict).value;
      && NoUnknownKeyErrors(done.errors)
      && (done.errors == [] ==> forall v :: v in permissive + strict ==> v.name in done.final)
      && (forall k :: k in done.final ==> k in Names(permissive) || k in Names(strict))
      && (forall v :: v in permissive + strict ==> v.name !in done.mutable)
  {
    var d := MigrateDiode(Outcome(raw, map[], [], [])).value;
    var m := MigrateExtraSpefs(d);
    var loose := CompileAll(compile, true, m, permissive).value;
    var done := CompileAll(compile, false, loose, strict).value;
    assert done == CompileStages(compile, raw, permissive, strict).value;
    CompileAllLoop(compile, true, m, permissive);
    CompileAllLoop(compile, false, loose, strict);
    LoopStepCompose(m, loose, done, permissive, strict);
    NamesAppend(permissive, strict);
    DiodeReportsNoKeys(Outcome(raw, map[], [], []));
    ExtraSpefsReportsNoKeys(d);
    LoopResult(m, done, permissive + strict);
  }

  /** What the loops leave, starting from no processed value and no unknown-key report. */
  lemma LoopResult(m: Outcome, done: Outcome, vars: seq<Variable>)
    requires LoopStep(m, done, vars) && m.final == map[] && NoUnknownKeyErrors(m.errors)
    ensures NoUnknownKeyErrors(done.errors)
    ensures done.errors == [] ==> forall v :: v in vars ==> v.name in done.final
    ensures forall k :: k in done.final ==> k in Names(vars)
    ensures forall v :: v in vars ==> v.name !in done.mutable
  {
    assert done.errors == m.errors + done.errors[|m.errors|..];
    forall v | v in vars
      ensures v.name !in done.mutable && (|done.errors| == |m.errors| ==> v.name in done.final)
    {
      var i :| 0 <= i < |vars| && vars[i] == v;
    }
  }

  /**
    What the processing reports: an unknown-key error only under the "error"
    policy, only for a reportable key no step declares, and never for a
    variable the loops processed; with no error at all, every variable has a
    processed value, and no other key has one.
  */
  lemma ProcessReports(compile: Compiler, raw: Config, permissive: seq<Variable>, strict: seq<Variable>,
                       removed: map<string, string>, special: set<string>, known: set<string>, policy: UnknownKeyPolicy)
    requires Process(compile, raw, permissive, strict, removed, special, known, policy).Success?
    ensures var r := Process(compile, raw, permissive, strict, removed, special, known, policy).value;
      && (forall k :: k in r.final ==> k in Names(permissive) || k in Names(strict))
      && (r.errors == [] ==> forall v :: v in permissive + strict ==> v.name in r.final)
      && (forall k :: KeyUnknown(k) in r.errors ==>
            && policy == ErrorOnUnknown && k !in known && Reportable(k, special, removed, policy)
            && k !in Names(permissive) && k !in Names(strict))
  {
    CompileStagesResult(compile, raw, permissive, strict);
    var done := CompileStages(compile, raw, permissive, strict).value;
    var keys := SortedKeys(done.mutable.Keys);
    var leftover := Classify(keys, special, removed, known, policy);
    ClassifyUnknown(keys, special, removed, known, policy);
    var r := Process(compile, raw, permissive, strict, removed, special, known, policy).value;
    assert r == Processed(done.final, done.warnings + leftover.warnings, done.errors + leftover.errors);
    forall k | KeyUnknown(k) in r.errors
      ensures && policy == ErrorOnUnknown && k !in known && Reportable(k, special, removed, policy)
              && k !in Names(permissive) && k !in Names(strict)
    {
      assert KeyUnknown(k) !in done.errors;
      assert k in keys;
      forall i | 0 <= i < |permissive|
        ensures permissive[i].name != k
      {
        assert permissive[i] in permissive + strict;
      }
      forall i | 0 <= i < |strict|
        ensures strict[i].name != k
      {
        assert strict[i] in permissive + strict;
      }
    }
  }
}
