/**
  The helpers of openlane/config/config.py around the processing: filtered
  copies, incremental re-validation with layered inputs, `NAME=VALUE`
  override strings, and the split of the flow's variables into permissive
  and strict ones by the configuration's meta version.  Preprocessing, PDK
  loading and `Meta` parsing are parameters.
*/
module ConfigLoad {
  import opened Wrappers
  import opened Strings
  import opened Values
  import opened Variables
  import opened ConfigProcess

  /** The exceptions loading raises. */
  datatype LoadError =
    | Crashed(crash: Crash)                                // uncaught during processing
    | InvalidConfig(warnings: seq<Diag>, errors: seq<Diag>)
    | MissingVariables(names: set<string>)                 // KeyError: one of these is not in the configuration
    | MalformedOverride(text: string)                      // ValueError: no '=' to split at
    | InvalidMeta(message: string)

  /** The names of `vars`, as a set. */
  function NameSet(vars: seq<Variable>): (s: set<string>)
    ensures forall n :: n in s <==> n in Names(vars)
  {
    set n | n in Names(vars)
  }

  // ---------------------------------------------------------------------
  // copy_filtered (config.py:167-194)

  /** The names a filtered copy keeps. */
  function Wanted(vars: seq<Variable>, common: seq<Variable>, includeFlow: bool): set<string> {
    NameSet(vars) + if includeFlow then NameSet(common) else {}
  }

  function CopyFiltered(cfg: Config, vars: seq<Variable>, common: seq<Variable>, includeFlow: bool)
    : (r: Result<Config, LoadError>)
  {
    var wanted := Wanted(vars, common, includeFlow);
    if wanted <= cfg.Keys then Success(map k | k in wanted :: cfg[k])
    else Failure(MissingVariables(wanted - cfg.Keys))
  }

  /**
    A filtered copy has exactly the names of the given variables (and of the
    common flow variables when asked), with the original's values; it fails
    exactly when one of them is missing, naming only missing ones.
  */
  lemma CopyFilteredKeys(cfg: Config, vars: seq<Variable>, common: seq<Variable>, includeFlow: bool)
    ensures var r := CopyFiltered(cfg, vars, common, includeFlow);
      && (r.Success? <==> forall n :: n in Names(vars) || (includeFlow && n in Names(common)) ==> n in cfg)
      && (r.Success? ==>
            && (forall n :: n in r.value <==> n in Names(vars) || (includeFlow && n in Names(common)))
            && forall n :: n in r.value ==> r.value[n] == cfg[n])
      && (r.Failure? ==> r.error.MissingVariables? && r.error.names != {} && forall n :: n in r.error.names ==> n !in cfg)
  {
    var wanted := Wanted(vars, common, includeFlow);
    if !(wanted <= cfg.Keys) {
      var n :| n in wanted && n !in cfg.Keys;
      assert n in wanted - cfg.Keys;
    }
  }

  /** Filtering a filtered copy again with the same variables changes nothing. */
  lemma CopyFilteredIdempotent(cfg: Config, vars: seq<Variable>, common: seq<Variable>, includeFlow: bool)
    requires CopyFiltered(cfg, vars, common, includeFlow).Success?
    ensures CopyFiltered(CopyFiltered(cfg, vars, common, includeFlow).value, vars, common, includeFlow)
      == CopyFiltered(cfg, vars, common, includeFlow)
  {
    var wanted := Wanted(vars, common, includeFlow);
    var c := CopyFiltered(cfg, vars, common, includeFlow).value;
    assert c.Keys == wanted;
    assert (map k | k in wanted :: c[k]) == c;
  }

  // ---------------------------------------------------------------------
  // with_increment (config.py:219-242)

  /** `mutable.update(self); mutable.update(other)` over the PDK's values. */
  function Layer(pdk: Config, base: Config, other: Config): Config {
    pdk + base + other
  }

  /** Later layers win: the other inputs, then the configuration itself, then the PDK. */
  lemma LayerPrecedence(pdk: Config, base: Config, other: Config, k: string)
    ensures var m := Layer(pdk, base, other);
      && (k in m <==> k in pdk || k in base || k in other)
      && (k in other ==> m[k] == other[k])
      && (k !in other && k in base ==> m[k] == base[k])
      && (k !in other && k !in base && k in pdk ==> m[k] == pdk[k])
  {
  }

  /**
    Re-validates the layered inputs with every variable strict and unknown
    keys ignored; any error raises InvalidConfig.  `pdk` stands for what
    loading the PDK gives for the PDK-scoped variables.
  */
  function WithIncrement(compile: Compiler, base: Config, pdk: Config, vars: seq<Variable>, other: Config,
                         removed: map<string, string>, special: set<string>, known: set<string>)
    : Result<Config, LoadError>
  {
    match Process(compile, Layer(pdk, base, other), [], vars, removed, special, known, IgnoreUnknown)
    case Failure(c) => Failure(Crashed(c))
    case Success(p) =>
      if |p.errors| != 0 then Failure(InvalidConfig(p.warnings, p.errors))
      else Success(p.final)
  }

  /**
    An incremental configuration holds exactly the given variables, and it is
    never rejected for an unknown key: only compile failures and the legacy
    migrations can make it invalid.
  */
  lemma WithIncrementResult(compile: Compiler, base: Config, pdk: Config, vars: seq<Variable>, other: Config,
                            removed: map<string, string>, special: set<string>, known: set<string>)
    ensures var r := WithIncrement(compile, base, pdk, vars, other, removed, special, known);
      && (r.Success? ==> r.value.Keys == NameSet(vars))
      && (r.Failure? && r.error.InvalidConfig? ==>
            r.error.errors != [] && forall k :: KeyUnknown(k) !in r.error.errors)
  {
    var p := Process(compile, Layer(pdk, base, other), [], vars, removed, special, known, IgnoreUnknown);
    if p.Success? {
      ProcessReports(compile, Layer(pdk, base, other), [], vars, removed, special, known, IgnoreUnknown);
      assert [] + vars == vars;
      IncrementKeys(p.value, vars);
    }
  }

  /** Processed values for exactly the variables' names, once there is no error. */
  lemma IncrementKeys(p: Processed, vars: seq<Variable>)
    requires forall k :: k in p.final ==> k in Names([]) || k in Names(vars)
    requires p.errors == [] ==> forall v :: v in [] + vars ==> v.name in p.final
    ensures p.errors == [] ==> p.final.Keys == NameSet(vars)
  {
    assert [] + vars == vars;
    if p.errors == [] {
      forall n | n in NameSet(vars)
        ensures n in p.final
      {
        var i :| 0 <= i < |vars| && Names(vars)[i] == n;
        assert vars[i] in vars;
      }
    }
  }

  // ---------------------------------------------------------------------
  // Override strings (config.py:531-535)

  /** `key, value = string.split("=", 1)`: the key is everything before the first '='. */
  function ParseOverride(s: string): (r: Result<(string, string), LoadError>)
    ensures r.Failure? <==> '=' !in s
    ensures r.Failure? ==> r.error == MalformedOverride(s)
    ensures r.Success? ==> '=' !in r.value.0 && s == r.value.0 + "=" + r.value.1
  {
    match SplitOnce(s, '=')
    case None => Failure(MalformedOverride(s))
    case Some(kv) => Success(kv)
  }

  /** Joining a key without '=' to any value, even one containing '=', parses back to both. */
  lemma ParseOverrideJoin(k: string, v: string)
    requires '=' !in k
    ensures ParseOverride(k + "=" + v) == Success((k, v))
  {
    SplitOnceJoin(k, '=', v);
  }

  /** All override strings parsed, in order; the first malformed one raises. */
  function ParseOverrides(overrides: seq<string>): (r: Result<seq<(string, string)>, LoadError>)
    ensures r.Success? <==> forall i :: 0 <= i < |overrides| ==> '=' in overrides[i]
    ensures r.Success? ==>
      && |r.value| == |overrides|
      && forall i :: 0 <= i < |overrides| ==> ParseOverride(overrides[i]) == Success(r.value[i])
    ensures r.Failure? ==>
      exists i :: && 0 <= i < |overrides| && r.error == MalformedOverride(overrides[i])
                  && '=' !in overrides[i] && forall j :: 0 <= j < i ==> '=' in overrides[j]
  {
    if |overrides| == 0 then Success([])
    else
      match ParseOverride(overrides[0])
      case Failure(e) => Failure(e)
      case Success(kv) =>
        match ParseOverrides(overrides[1..])
        case Failure(e) =>
          assert forall j :: 1 <= j < |overrides| ==> overrides[j] == overrides[1..][j - 1];
          Failure(e)
        case Success(rest) => Success([kv] + rest)
  }

  /** `raw[key] = value` for each parsed override in order, and the set of keys set. */
  function ApplyPairs(raw: Config, pairs: seq<(string, string)>): (Config, set<string>)
    decreases |pairs|
  {
    if |pairs| == 0 then (raw, {})
    else
      var prev := ApplyPairs(raw, pairs[..|pairs| - 1]);
      var kv := pairs[|pairs| - 1];
      (prev.0[kv.0 := VStr(kv.1)], prev.1 + {kv.0})
  }

  /** The overrides applied to `raw` (config.py:531-535). */
  function ApplyOverrides(raw: Config, overrides: seq<string>): (r: Result<(Config, set<string>), LoadError>)
  {
    var pairs :- ParseOverrides(overrides);
    Success(ApplyPairs(raw, pairs))
  }

  /** The keys the parsed overrides name. */
  function PairKeys(pairs: seq<(string, string)>): set<string> {
    set i | 0 <= i < |pairs| :: pairs[i].0
  }

  /** The overridden keys are exactly those the overrides name. */
  lemma {:induction false} OverriddenKeys(raw: Config, pairs: seq<(string, string)>)
    ensures ApplyPairs(raw, pairs).1 == PairKeys(pairs)
    decreases |pairs|
  {
    if |pairs| > 0 {
      var n := |pairs| - 1;
      OverriddenKeys(raw, pairs[..n]);
      assert PairKeys(pairs) == PairKeys(pairs[..n]) + {pairs[n].0} by {
        assert forall i :: 0 <= i < n ==> pairs[..n][i] == pairs[i];
      }
    }
  }

  /** Keys no override names keep their values, and overrides add no key they do not name. */
  lemma {:induction false} OverridesKeepOthers(raw: Config, pairs: seq<(string, string)>)
    ensures var r := ApplyPairs(raw, pairs);
      && (forall k :: k in raw && k !in r.1 ==> k in r.0 && r.0[k] == raw[k])
      && (forall k :: k in r.0 ==> k in raw || k in r.1)
    decreases |pairs|
  {
    if |pairs| > 0 {
      OverridesKeepOthers(raw, pairs[..|pairs| - 1]);
    }
  }

  /** An overridden key takes, as a string, the value of the last override naming it. */
  lemma {:induction false} OverridesLastWins(raw: Config, pairs: seq<(string, string)>, i: nat)
    requires i < |pairs|
    requires forall j :: i < j < |pairs| ==> pairs[j].0 != pairs[i].0
    ensures var r := ApplyPairs(raw, pairs);
      pairs[i].0 in r.0 && r.0[pairs[i].0] == VStr(pairs[i].1)
    decreases |pairs|
  {
    var n := |pairs| - 1;
    if i < n {
      assert pairs[..n][i] == pairs[i];
      OverridesLastWins(raw, pairs[..n], i);
    }
  }

  // ---------------------------------------------------------------------
  // Permissive and strict variables (config.py:586-596)

  /** The variables of `vars` whose names are (`keep`) or are not overridden, in order. */
  function ByOverride(vars: seq<Variable>, overridden: set<string>, keep: bool): (r: seq<Variable>)
    ensures forall v :: v in r <==> v in vars && (v.name in overridden <==> keep)
    ensures |r| <= |vars|
  {
    if |vars| == 0 then []
    else
      var rest := ByOverride(vars[1..], overridden, keep);
      if (vars[0].name in overridden) == keep then [vars[0]] + rest else rest
  }

  /**
    From meta version 2 on, overridden variables are compiled permissively,
    the rest strictly, and unknown keys are errors; before, every variable is
    permissive and unknown keys only warn.
  */
  function Partition(vars: seq<Variable>, overridden: set<string>, version: int)
    : (seq<Variable>, seq<Variable>, UnknownKeyPolicy)
  {
    if version >= 2 then (ByOverride(vars, overridden, true), ByOverride(vars, overridden, false), ErrorOnUnknown)
    else (vars, [], WarnOnUnknown)
  }

  /** Both selections together keep every variable exactly once. */
  lemma {:induction false} ByOverrideSplits(vars: seq<Variable>, overridden: set<string>)
    ensures multiset(ByOverride(vars, overridden, true)) + multiset(ByOverride(vars, overridden, false)) == multiset(vars)
  {
    if |vars| > 0 {
      ByOverrideSplits(vars[1..], overridden);
      assert vars == [vars[0]] + vars[1..];
    }
  }

  lemma PartitionSplits(vars: seq<Variable>, overridden: set<string>, version: int)
    ensures var (loose, tight, policy) := Partition(vars, overridden, version);
      && multiset(loose) + multiset(tight) == multiset(vars)
      && (version >= 2 ==>
            && policy == ErrorOnUnknown
            && (forall v :: v in loose ==> v.name in overridden)
            && (forall v :: v in tight ==> v.name !in overridden))
      && (version < 2 ==> loose == vars && tight == [] && policy == WarnOnUnknown)
  {
    ByOverrideSplits(vars, overridden);
  }

  // ---------------------------------------------------------------------
  // Loading a configuration dictionary (config.py:492-612)

  const MetaKey: string := "meta"

  /** The meta version: parsed from a `meta` entry that is not None, else the default. */
  function MetaVersion(mapping: Config, defaultVersion: int, parseMeta: Value -> Result<int, string>)
    : Result<int, LoadError>
  {
    if Get(mapping, MetaKey) == VNone then Success(defaultVersion)
    else
      match parseMeta(mapping[MetaKey])
      case Failure(message) => Failure(InvalidMeta(message))
      case Success(version) => Success(version)
  }

  /**
    The processing step of `__load_dict`: the variables are partitioned by the
    meta version and the overridden keys, and any processing error raises
    InvalidConfig.
  */
  function ValidateLoaded(compile: Compiler, prepared: Config, flowVars: seq<Variable>, overridden: set<string>,
                          version: int, removed: map<string, string>, special: set<string>, known: set<string>)
    : Result<Config, LoadError>
  {
    var (loose, tight, policy) := Partition(flowVars, overridden, version);
    match Process(compile, prepared, loose, tight, removed, special, known, policy)
    case Failure(c) => Failure(Crashed(c))
    case Success(p) =>
      if |p.errors| != 0 then Failure(InvalidConfig(p.warnings, p.errors))
      else Success(p.final)
  }

  /**
    `__load_dict`: a `meta` entry that is not None is taken out and parsed
    (`parseMeta`, whose failure is the TypeError of `Meta(**meta_raw)`), the
    overrides are applied, `prepare` stands for the preprocessing and PDK
    loading, and the result is validated.
  */
  function LoadDict(compile: Compiler, mapping: Config, overrides: seq<string>, flowVars: seq<Variable>,
                    defaultVersion: int, parseMeta: Value -> Result<int, string>, prepare: Config -> Config,
                    removed: map<string, string>, special: set<string>, known: set<string>)
    : Result<(Config, int), LoadError>
  {
    var version :- MetaVersion(mapping, defaultVersion, parseMeta);
    var raw := if Get(mapping, MetaKey) == VNone then mapping else mapping - {MetaKey};
    var applied :- ApplyOverrides(raw, overrides);
    var final :- ValidateLoaded(compile, prepare(applied.0), flowVars, applied.1, version, removed, special, known);
    Success((final, version))
  }

  /** Selecting the overridden variables and the others loses no name and adds none. */
  lemma ByOverrideNames(vars: seq<Variable>, overridden: set<string>)
    ensures forall n ::
              (n in Names(ByOverride(vars, overridden, true)) || n in Names(ByOverride(vars, overridden, false)))
              <==> n in Names(vars)
  {
    forall n | n in Names(vars)
      ensures n in Names(ByOverride(vars, overridden, n in overridden))
    {
      var i :| 0 <= i < |vars| && Names(vars)[i] == n;
      var part := ByOverride(vars, overridden, n in overridden);
      assert vars[i] in part;
      var j :| 0 <= j < |part| && part[j] == vars[i];
      assert Names(part)[j] == n;
    }
    forall n, keep | n in Names(ByOverride(vars, overridden, keep))
      ensures n in Names(vars)
    {
      var part := ByOverride(vars, overridden, keep);
      var j :| 0 <= j < |part| && Names(part)[j] == n;
      assert part[j] in vars;
      var i :| 0 <= i < |vars| && vars[i] == part[j];
      assert Names(vars)[i] == n;
    }
  }

  /**
    A validated configuration holds exactly the flow's variables, and it is
    rejected for an unknown key only from meta version 2 on.
  */
  lemma ValidateLoadedResult(compile: Compiler, prepared: Config, flowVars: seq<Variable>, overridden: set<string>,
                             version: int, removed: map<string, string>, special: set<string>, known: set<string>)
    ensures var r := ValidateLoaded(compile, prepared, flowVars, overridden, version, removed, special, known);
      && (r.Success? ==> r.value.Keys == NameSet(flowVars))
      && (forall k :: r.Failure? && r.error.InvalidConfig? && KeyUnknown(k) in r.error.errors ==> version >= 2)
  {
    var (loose, tight, policy) := Partition(flowVars, overridden, version);
    var p := Process(compile, prepared, loose, tight, removed, special, known, policy);
    if p.Success? {
      ProcessReports(compile, prepared, loose, tight, removed, special, known, policy);
      ByOverrideNames(flowVars, overridden);
      if |p.value.errors| == 0 {
        forall n | n in Names(loose) || n in Names(tight)
          ensures n in p.value.final
        {
          if n in Names(loose) {
            var i :| 0 <= i < |loose| && Names(loose)[i] == n;
            assert loose[i] in loose + tight;
          } else {
            var i :| 0 <= i < |tight| && Names(tight)[i] == n;
            assert tight[i] in loose + tight;
          }
        }
      }
    }
  }

  /**
    A loaded configuration holds exactly the flow's variables, and it is
    rejected for an unknown key only when its meta version is 2 or more.
  */
  lemma LoadDictResult(compile: Compiler, mapping: Config, overrides: seq<string>, flowVars: seq<Variable>,
                       defaultVersion: int, parseMeta: Value -> Result<int, string>, prepare: Config -> Config,
                       removed: map<string, string>, special: set<string>, known: set<string>)
    ensures var r := LoadDict(compile, mapping, overrides, flowVars, defaultVersion, parseMeta, prepare, removed, special, known);
      && (r.Success? ==> r.value.0.Keys == NameSet(flowVars) && r.value.1 == MetaVersion(mapping, defaultVersion, parseMeta).value)
      && (forall k :: r.Failure? && r.error.InvalidConfig? && KeyUnknown(k) in r.error.errors ==>
            MetaVersion(mapping, defaultVersion, parseMeta).Success? && MetaVersion(mapping, defaultVersion, parseMeta).value >= 2)
  {
    var version := MetaVersion(mapping, defaultVersion, parseMeta);
    if version.Success? {
      var raw := if Get(mapping, MetaKey) == VNone then mapping else mapping - {MetaKey};
      var applied := ApplyOverrides(raw, overrides);
      if applied.Success? {
        var v := ValidateLoaded(compile, prepare(applied.value.0), flowVars, applied.value.1, version.value, removed, special, known);
        ValidateLoadedResult(compile, prepare(applied.value.0), flowVars, applied.value.1, version.value, removed, special, known);
        assert LoadDict(compile, mapping, overrides, flowVars, defaultVersion, parseMeta, prepare, removed, special, known)
          == if v.Failure? then Failure(v.error) else Success((v.value, version.value));
      }
    }
  }
}
