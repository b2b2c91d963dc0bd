/**
  The decisions the OpenROAD steps of openlane/steps/openroad.py take before
  handing over to the tool: the dynamic placement density, the conditions
  under which a step does not run, the clock net of clock-tree synthesis, the
  corners the resizer sets up, and the nets the antenna report names.  The
  tool runs themselves are not modelled; a step that runs is described by the
  environment it adds.
*/
module StepRules {
  import opened Wrappers
  import opened Strings
  import opened Values
  import opened Variables
  import Seqs

  /** The extra environment a step passes to its tool. */
  type Env = map<string, Value>

  /** What a step does: nothing, or run its tool with an environment. */
  datatype Action = Skip | Run(env: Env)

  // ---------------------------------------------------------------------
  // Placement density (openroad.py:877-884, 917-928, 945-962)

  const DensityKey: string := "PL_TARGET_DENSITY_PCT"

  /**
    The `PL_TARGET_DENSITY_PCT` variable of global placement: optional, and
    still accepting the legacy fractional `PL_TARGET_DENSITY`, scaled to a
    percentage.
  */
  const TargetDensityVariable: Variable :=
    Variable(DensityKey, Optional(Decimal), None, [Alias("PL_TARGET_DENSITY", Times100)], false)

  /** A legacy fractional density becomes the same density in percent. */
  lemma LegacyDensityIsPercent(d: real)
    ensures |TargetDensityVariable.aliases| == 1
    ensures var alias := TargetDensityVariable.aliases[0];
      alias.name == "PL_TARGET_DENSITY" && Migrate(alias.migration, VDec(d)) == Some(VDec(d * 100.0))
  {
    PercentMigrationScales(VDec(d));
  }

  /** `min(FP_CORE_UTIL + 5 * GPL_CELL_PADDING + 10, 100)`. */
  function DynamicDensity(coreUtil: real, padding: real): (r: real)
    ensures r <= 100.0
    ensures r == 100.0 || r == coreUtil + 5.0 * padding + 10.0
    ensures coreUtil + 5.0 * padding + 10.0 <= 100.0 ==> r == coreUtil + 5.0 * padding + 10.0
  {
    var expr := coreUtil + 5.0 * padding + 10.0;
    if expr < 100.0 then expr else 100.0
  }

  /** The density never decreases as the utilisation or the padding grows. */
  lemma DynamicDensityMonotone(u1: real, p1: real, u2: real, p2: real)
    requires u1 <= u2 && p1 <= p2
    ensures DynamicDensity(u1, p1) <= DynamicDensity(u2, p2)
  {
  }

  /** The environment with the density filled in when the configuration leaves it unset. */
  function WithDensity(env: Env, pct: Option<real>, coreUtil: real, padding: real): (r: Env)
  {
    if pct.None? then env[DensityKey := VDec(DynamicDensity(coreUtil, padding))] else env
  }

  /** `GlobalPlacement.run`. */
  function GlobalPlacement(env: Env, pct: Option<real>, coreUtil: real, padding: real): Action {
    Run(WithDensity(env, pct, coreUtil, padding))
  }

  const SkipIoKey: string := "__PL_SKIP_IO"

  /** `GlobalPlacementSkipIO.run`: random equidistant IO placement makes this iteration unnecessary. */
  function GlobalPlacementSkipIo(env: Env, ioMode: string, pct: Option<real>, coreUtil: real, padding: real): Action {
    if ioMode == "random_equidistant" then Skip
    else Run(WithDensity(env, pct, coreUtil, padding)[SkipIoKey := VStr("1")])
  }

  /**
    Both placement steps leave a set density alone and otherwise set the
    dynamic one, at most 100; the IO-skipping variant skips exactly for
    random equidistant IO placement and else also asks the script to skip IO.
  */
  lemma PlacementDensity(env: Env, ioMode: string, pct: Option<real>, coreUtil: real, padding: real)
    ensures var r := GlobalPlacement(env, pct, coreUtil, padding).env;
      && (pct.Some? ==> r == env)
      && (pct.None? ==> DensityKey in r && r[DensityKey].VDec? && r[DensityKey].d <= 100.0
                        && r.Keys == env.Keys + {DensityKey})
    ensures var a := GlobalPlacementSkipIo(env, ioMode, pct, coreUtil, padding);
      && (a.Skip? <==> ioMode == "random_equidistant")
      && (a.Run? ==>
            && a.env[SkipIoKey] == VStr("1")
            && (pct.None? ==> a.env[DensityKey] == GlobalPlacement(env, pct, coreUtil, padding).env[DensityKey])
            && (pct.Some? ==> forall k :: k in env && k != SkipIoKey ==> k in a.env && a.env[k] == env[k]))
  {
    assert DensityKey[0] != SkipIoKey[0];
  }

  // ---------------------------------------------------------------------
  // IO placement (openroad.py:786-792)

  /** `IOPlacement.run`: a custom pin order file means the step only checks and copies. */
  function IoPlacement(env: Env, pinOrderCfg: Value): (a: Action)
    ensures a.Skip? <==> pinOrderCfg != VNone
    ensures a.Run? ==> a.env == env
  {
    if pinOrderCfg != VNone then Skip else Run(env)
  }

  // ---------------------------------------------------------------------
  // Clock-tree synthesis (openroad.py:1512-1530)

  /** The items of a list of strings, or None if some item is not a string. */
  function Texts(items: seq<Value>): (r: Option<seq<string>>)
    ensures r.Some? <==> forall i :: 0 <= i < |items| ==> items[i].VStr?
    ensures r.Some? ==> |r.value| == |items| && forall i :: 0 <= i < |items| ==> items[i] == VStr(r.value[i])
  {
    if |items| == 0 then Some([])
    else if !items[0].VStr? then None
    else
      match Texts(items[1..])
      case None => None
      case Some(rest) => Some([items[0].s] + rest)
  }

  /** Why CTS cannot start: `" ".join` of a list holding a non-string raises TypeError. */
  datatype CtsError = ClockPortNotText(port: Value)

  const ClockNetKey: string := "CLOCK_NET"

  /**
    `CTS.run`: without a `CLOCK_NET`, the clock port (a list of ports joined
    by spaces) stands in for it; without either, the step returns the state
    unaltered.  The corners then come from `CTS_CORNERS`.
  */
  function Cts(env: Env, clockNet: Value, clockPort: Value): (r: Result<Action, CtsError>)
  {
    if clockNet != VNone then Success(Run(env))
    else if !Truthy(clockPort) then Success(Skip)
    else if clockPort.VList? then
      match Texts(clockPort.items)
      case None => Failure(ClockPortNotText(clockPort))
      case Some(ports) => Success(Run(env[ClockNetKey := VStr(Join(ports, ' '))]))
    else Success(Run(env[ClockNetKey := clockPort]))
  }

  /**
    CTS runs whenever a clock net is set or a clock port is given; with a
    list of ports, the net is their space-joined names, from which splitting
    at spaces recovers the ports when no name holds a space.
  */
  lemma CtsClockNet(env: Env, clockNet: Value, clockPort: Value)
    ensures var r := Cts(env, clockNet, clockPort);
      && (r.Success? && r.value.Skip? <==> clockNet == VNone && !Truthy(clockPort))
      && (r.Failure? ==> clockNet == VNone && clockPort.VList? && Texts(clockPort.items).None?)
      && (clockNet != VNone ==> r == Success(Run(env)))
      && (clockNet == VNone && Truthy(clockPort) && !clockPort.VList? ==>
            r == Success(Run(env[ClockNetKey := clockPort])))
    ensures clockNet == VNone && clockPort.VList? && |clockPort.items| > 0 && Texts(clockPort.items).Some? ==>
      var ports := Texts(clockPort.items).value;
      var a := Cts(env, clockNet, clockPort).value;
      && a.Run? && ClockNetKey in a.env && a.env[ClockNetKey].VStr?
      && ((forall i :: 0 <= i < |ports| ==> ' ' !in ports[i]) ==> Split(a.env[ClockNetKey].s, {' '}) == ports)
  {
    if clockNet == VNone && clockPort.VList? && |clockPort.items| > 0 && Texts(clockPort.items).Some? {
      var ports := Texts(clockPort.items).value;
      if forall i :: 0 <= i < |ports| ==> ' ' !in ports[i] {
        forall i | 0 <= i < |ports|
          ensures Avoids(ports[i], {' '})
        {
        }
        SplitJoin(ports, ' ', {' '});
      }
    }
  }

  // ---------------------------------------------------------------------
  // Resizer corners (openroad.py:1429-1449)

  /** `self.config[corners_key] or self.config["STA_CORNERS"]`. */
  function SelectCorners(own: seq<string>, sta: seq<string>): (r: seq<string>)
    ensures |own| > 0 ==> r == own
    ensures |own| == 0 ==> r == sta
  {
    if |own| > 0 then own else sta
  }

  /** One `RSZ_CORNER_<k>` entry: a corner and the liberty files it brings. */
  datatype RszCorner = RszCorner(corner: string, libs: seq<string>)

  /** The set of liberty files of each corner, in the order of the corners. */
  function LibSets(corners: seq<string>, libsOf: string -> seq<string>): (r: seq<set<string>>)
    ensures |r| == |corners| && forall i :: 0 <= i < |corners| ==> r[i] == LibSet(libsOf(corners[i]))
  {
    seq(|corners|, i requires 0 <= i < |corners| => LibSet(libsOf(corners[i])))
  }

  /** `frozenset(libs)`. */
  function LibSet(libs: seq<string>): set<string> {
    set f | f in libs
  }

  function EntrySets(entries: seq<RszCorner>): (r: seq<set<string>>)
    ensures |r| == |entries| && forall k :: 0 <= k < |entries| ==> r[k] == LibSet(entries[k].libs)
  {
    seq(|entries|, k requires 0 <= k < |entries| => LibSet(entries[k].libs))
  }

  /**
    The resizer's corner setup: one entry per distinct set of liberty files,
    in the order the sets first appear, each naming the first corner that
    brought its set.  `libsOf` stands for the liberty files the toolbox finds
    for a corner; entry `k` becomes `RSZ_CORNER_k`.
  */
  method ResizerCorners(corners: seq<string>, libsOf: string -> seq<string>) returns (entries: seq<RszCorner>)
    ensures EntrySets(entries) == Seqs.Dedupe(LibSets(corners, libsOf))
    ensures |entries| <= |corners|
    ensures forall k :: 0 <= k < |entries| ==>
      && entries[k].libs == libsOf(entries[k].corner)
      && LibSet(entries[k].libs) in LibSets(corners, libsOf)
      && entries[k].corner == corners[Seqs.FirstIndex(LibSets(corners, libsOf), LibSet(entries[k].libs))]
  {
    var sets := LibSets(corners, libsOf);
    var seen: set<set<string>> := {};
    entries := [];
    for i := 0 to |corners|
      invariant Chosen(corners, libsOf, sets, entries, seen, i)
    {
      var libs := libsOf(corners[i]);
      var libSet := LibSet(libs);
      if libSet !in seen {
        ChosenNew(corners, libsOf, sets, entries, seen, i);
        seen := seen + {libSet};
        entries := entries + [RszCorner(corners[i], libs)];
      } else {
        ChosenSeen(corners, libsOf, sets, entries, seen, i);
      }
    }
    ChosenAll(corners, libsOf, sets, entries, seen);
  }

  lemma ChosenAll(corners: seq<string>, libsOf: string -> seq<string>, sets: seq<set<string>>,
                  entries: seq<RszCorner>, seen: set<set<string>>)
    requires Chosen(corners, libsOf, sets, entries, seen, |corners|)
    ensures EntrySets(entries) == Seqs.Dedupe(sets)
    ensures |entries| <= |corners|
    ensures forall k :: 0 <= k < |entries| ==>
      && entries[k].libs == libsOf(entries[k].corner)
      && LibSet(entries[k].libs) in sets
      && entries[k].corner == corners[Seqs.FirstIndex(sets, LibSet(entries[k].libs))]
  {
    assert sets[..|corners|] == sets;
  }

  /**
    The loop invariant of the resizer's corner setup after the first `i`
    corners: one entry per distinct set so far, each from its first corner.
  */
  ghost predicate Chosen(corners: seq<string>, libsOf: string -> seq<string>, sets: seq<set<string>>,
                  entries: seq<RszCorner>, seen: set<set<string>>, i: nat)
  {
    && sets == LibSets(corners, libsOf)
    && i <= |corners|
    && (forall x :: x in seen <==> x in sets[..i])
    && EntrySets(entries) == Seqs.Dedupe(sets[..i])
    && forall k :: 0 <= k < |entries| ==>
         && entries[k].libs == libsOf(entries[k].corner)
         && LibSet(entries[k].libs) in sets[..i]
         && entries[k].corner == corners[Seqs.FirstIndex(sets, LibSet(entries[k].libs))]
  }

  lemma ChosenNew(corners: seq<string>, libsOf: string -> seq<string>, sets: seq<set<string>>,
                  entries: seq<RszCorner>, seen: set<set<string>>, i: nat)
    requires Chosen(corners, libsOf, sets, entries, seen, i) && i < |corners|
    requires LibSet(libsOf(corners[i])) !in seen
    ensures Chosen(corners, libsOf, sets, entries + [RszCorner(corners[i], libsOf(corners[i]))],
                   seen + {LibSet(libsOf(corners[i]))}, i + 1)
  {
    ChosenNewSets(corners, libsOf, sets, entries, seen, i);
    ChosenNewEntries(corners, libsOf, sets, entries, seen, i);
  }

  /** A corner bringing a new set adds that set to those seen and to the entries' sets. */
  lemma ChosenNewSets(corners: seq<string>, libsOf: string -> seq<string>, sets: seq<set<string>>,
                      entries: seq<RszCorner>, seen: set<set<string>>, i: nat)
    requires Chosen(corners, libsOf, sets, entries, seen, i) && i < |corners|
    requires LibSet(libsOf(corners[i])) !in seen
    ensures var libSet := LibSet(libsOf(corners[i]));
      && (forall x :: x in seen + {libSet} <==> x in sets[..i + 1])
      && EntrySets(entries + [RszCorner(corners[i], libsOf(corners[i]))]) == Seqs.Dedupe(sets[..i + 1])
  {
    var libSet := LibSet(libsOf(corners[i]));
    var before := sets[..i];
    assert sets[..i + 1] == before + [libSet];
    Seqs.DedupeAppendNew(before, libSet);
    EntrySetsAppend(entries, RszCorner(corners[i], libsOf(corners[i])));
    SeenAppend(seen, before, libSet);
  }

  /** A corner bringing a new set is the first to bring it, so its entry is valid. */
  lemma ChosenNewEntries(corners: seq<string>, libsOf: string -> seq<string>, sets: seq<set<string>>,
                         entries: seq<RszCorner>, seen: set<set<string>>, i: nat)
    requires Chosen(corners, libsOf, sets, entries, seen, i) && i < |corners|
    requires LibSet(libsOf(corners[i])) !in seen
    ensures var next := entries + [RszCorner(corners[i], libsOf(corners[i]))];
      forall k :: 0 <= k < |next| ==>
        && next[k].libs == libsOf(next[k].corner)
        && LibSet(next[k].libs) in sets[..i + 1]
        && next[k].corner == corners[Seqs.FirstIndex(sets, LibSet(next[k].libs))]
  {
    var libSet := LibSet(libsOf(corners[i]));
    var before, after := sets[..i], sets[..i + 1];
    assert after == before + [libSet];
    FirstAt(sets, i);
    EntriesAppend(corners, libsOf, sets, entries, RszCorner(corners[i], libsOf(corners[i])), before, after);
  }

  /** The sets seen so far follow the prefix of the corners when one more corner is taken. */
  lemma SeenAppend(seen: set<set<string>>, before: seq<set<string>>, x: set<string>)
    requires forall y :: y in seen <==> y in before
    ensures forall y :: y in seen + {x} <==> y in before + [x]
  {
  }

  lemma EntrySetsAppend(entries: seq<RszCorner>, entry: RszCorner)
    ensures EntrySets(entries + [entry]) == EntrySets(entries) + [LibSet(entry.libs)]
  {
  }

  /** Entries chosen from the first corners stay valid for more corners, and so does one more valid entry. */
  lemma EntriesAppend(corners: seq<string>, libsOf: string -> seq<string>, sets: seq<set<string>>,
                      entries: seq<RszCorner>, entry: RszCorner, before: seq<set<string>>, after: seq<set<string>>)
    requires |sets| == |corners| && (forall x :: x in after ==> x in sets)
    requires forall x :: x in before ==> x in after
    requires forall k :: 0 <= k < |entries| ==>
      && entries[k].libs == libsOf(entries[k].corner)
      && LibSet(entries[k].libs) in before
      && entries[k].corner == corners[Seqs.FirstIndex(sets, LibSet(entries[k].libs))]
    requires entry.libs == libsOf(entry.corner) && LibSet(entry.libs) in after
    requires entry.corner == corners[Seqs.FirstIndex(sets, LibSet(entry.libs))]
    ensures var next := entries + [entry];
      forall k :: 0 <= k < |next| ==>
        && next[k].libs == libsOf(next[k].corner)
        && LibSet(next[k].libs) in after
        && next[k].corner == corners[Seqs.FirstIndex(sets, LibSet(next[k].libs))]
  {
    var next := entries + [entry];
    forall k | 0 <= k < |next|
      ensures next[k].libs == libsOf(next[k].corner)
      ensures LibSet(next[k].libs) in after
      ensures next[k].corner == corners[Seqs.FirstIndex(sets, LibSet(next[k].libs))]
    {
      if k < |entries| {
        assert next[k] == entries[k];
      } else {
        assert next[k] == entry;
      }
    }
  }

  lemma ChosenSeen(corners: seq<string>, libsOf: string -> seq<string>, sets: seq<set<string>>,
                   entries: seq<RszCorner>, seen: set<set<string>>, i: nat)
    requires Chosen(corners, libsOf, sets, entries, seen, i) && i < |corners|
    requires LibSet(libsOf(corners[i])) in seen
    ensures Chosen(corners, libsOf, sets, entries, seen, i + 1)
  {
    ChosenSeenSets(corners, libsOf, sets, entries, seen, i);
    ChosenSeenEntries(corners, libsOf, sets, entries, seen, i);
  }

  /** The entries stay valid for one more corner. */
  lemma ChosenSeenEntries(corners: seq<string>, libsOf: string -> seq<string>, sets: seq<set<string>>,
                          entries: seq<RszCorner>, seen: set<set<string>>, i: nat)
    requires Chosen(corners, libsOf, sets, entries, seen, i) && i < |corners|
    ensures forall k :: 0 <= k < |entries| ==>
      && entries[k].libs == libsOf(entries[k].corner)
      && LibSet(entries[k].libs) in sets[..i + 1]
      && entries[k].corner == corners[Seqs.FirstIndex(sets, LibSet(entries[k].libs))]
  {
    assert sets[..i + 1] == sets[..i] + [sets[i]];
    EntriesWiden(entries, sets[..i], sets[..i + 1]);
  }

  /** A corner bringing a set already seen changes neither the sets seen nor the entries' sets. */
  lemma ChosenSeenSets(corners: seq<string>, libsOf: string -> seq<string>, sets: seq<set<string>>,
                       entries: seq<RszCorner>, seen: set<set<string>>, i: nat)
    requires Chosen(corners, libsOf, sets, entries, seen, i) && i < |corners|
    requires LibSet(libsOf(corners[i])) in seen
    ensures forall x :: x in seen <==> x in sets[..i + 1]
    ensures EntrySets(entries) == Seqs.Dedupe(sets[..i + 1])
  {
    var libSet := LibSet(libsOf(corners[i]));
    var before := sets[..i];
    assert sets[..i + 1] == before + [libSet];
    Seqs.DedupeAppendSeen(before, libSet);
    SeenAppend(seen, before, libSet);
  }

  /** Entries whose sets lie in a prefix have them in any longer prefix. */
  lemma EntriesWiden(entries: seq<RszCorner>, before: seq<set<string>>, after: seq<set<string>>)
    requires forall k :: 0 <= k < |entries| ==> LibSet(entries[k].libs) in before
    requires forall x :: x in before ==> x in after
    ensures forall k :: 0 <= k < |entries| ==> LibSet(entries[k].libs) in after
  {
  }

  /** An element absent from the first `i` positions first occurs at `i`. */
  lemma FirstAt<T>(s: seq<T>, i: nat)
    requires i < |s| && s[i] !in s[..i]
    ensures Seqs.FirstIndex(s, s[i]) == i
  {
  }

  /** No two resizer corners bring the same liberty files, and every corner's files are covered. */
  lemma ResizerCornersCover(corners: seq<string>, libsOf: string -> seq<string>, entries: seq<RszCorner>)
    requires EntrySets(entries) == Seqs.Dedupe(LibSets(corners, libsOf))
    ensures forall a, b :: 0 <= a < b < |entries| ==> LibSet(entries[a].libs) != LibSet(entries[b].libs)
    ensures forall i :: 0 <= i < |corners| ==> exists k :: 0 <= k < |entries| && LibSet(entries[k].libs) == LibSet(libsOf(corners[i]))
  {
    var sets := LibSets(corners, libsOf);
    forall i | 0 <= i < |corners|
      ensures exists k :: 0 <= k < |entries| && LibSet(entries[k].libs) == LibSet(libsOf(corners[i]))
    {
      assert sets[i] in Seqs.Dedupe(sets);
      var k :| 0 <= k < |entries| && EntrySets(entries)[k] == sets[i];
    }
  }

  // ---------------------------------------------------------------------
  // Antenna nets (openroad.py:1294-1307)

  /** `\w` on ASCII text: letters, digits and the underscore. */
  predicate IsWordChar(c: char) {
    ('a' <= c <= 'z') || ('A' <= c <= 'Z') || ('0' <= c <= '9') || c == '_'
  }

  /** The number of leading characters of `s` in `chars`. */
  function LeadingRun(s: string, chars: set<char>): (n: nat)
    ensures n <= |s| && forall i :: 0 <= i < n ==> s[i] in chars
    ensures n < |s| ==> s[n] !in chars
  {
    if |s| == 0 || s[0] !in chars then 0 else 1 + LeadingRun(s[1..], chars)
  }

  function WordRun(s: string): (n: nat)
    ensures n <= |s| && forall i :: 0 <= i < n ==> IsWordChar(s[i])
    ensures n < |s| ==> !IsWordChar(s[n])
  {
    if |s| == 0 || !IsWordChar(s[0]) then 0 else 1 + WordRun(s[1..])
  }

  const NetPrefix: string := "Net:"

  /** A name `(\w+)` captures: a non-empty run of word characters. */
  predicate IsNet(w: string) {
    |w| > 0 && forall i :: 0 <= i < |w| ==> IsWordChar(w[i])
  }

  /**
    `re.match(r"Net:\s*(\w+)", line)[1]`: the line must start with `Net:`,
    then any whitespace, then at least one word character; the net is the
    longest run of word characters there.
  */
  function MatchNet(line: string): (r: Option<string>)
    ensures r.Some? ==> IsNet(r.value)
  {
    if !StartsWith(line, NetPrefix) then None
    else
      var rest := line[|NetPrefix|..];
      var after := rest[LeadingRun(rest, Whitespace)..];
      var n := WordRun(after);
      if n == 0 then None else Some(after[..n])
  }

  /** A `Net:` line names its net, whatever whitespace precedes it and whatever follows a non-word character. */
  lemma MatchNetFinds(space: string, net: string, tail: string)
    requires forall i :: 0 <= i < |space| ==> space[i] in Whitespace
    requires IsNet(net)
    requires |tail| > 0 ==> !IsWordChar(tail[0])
    ensures MatchNet(NetPrefix + space + net + tail) == Some(net)
  {
    var line := NetPrefix + space + net + tail;
    WordCharIsNoSpace(net[0]);
    assert line[..|NetPrefix|] == NetPrefix;
    var rest := line[|NetPrefix|..];
    assert rest == space + net + tail;
    LeadingRunOf(space, net + tail, Whitespace);
    assert rest[|space|..] == net + tail;
    WordRunOf(net, tail);
    assert (net + tail)[..|net|] == net;
  }

  lemma WordCharIsNoSpace(c: char)
    requires IsWordChar(c)
    ensures c !in Whitespace
  {
  }

  lemma {:induction false} LeadingRunOf(run: string, rest: string, chars: set<char>)
    requires forall i :: 0 <= i < |run| ==> run[i] in chars
    requires |rest| > 0 && rest[0] !in chars
    ensures LeadingRun(run + rest, chars) == |run|
    decreases |run|
  {
    if |run| > 0 {
      assert (run + rest)[1..] == run[1..] + rest;
      LeadingRunOf(run[1..], rest, chars);
    } else {
      assert run + rest == rest;
    }
  }

  lemma {:induction false} WordRunOf(run: string, rest: string)
    requires forall i :: 0 <= i < |run| ==> IsWordChar(run[i])
    requires |rest| > 0 ==> !IsWordChar(rest[0])
    ensures WordRun(run + rest) == |run|
    decreases |run|
  {
    if |run| > 0 {
      assert (run + rest)[1..] == run[1..] + rest;
      WordRunOf(run[1..], rest);
    } else {
      assert run + rest == rest;
    }
  }

  /** The net a report line names, once stripped. */
  function NetOfLine(line: string): (r: Option<string>)
    ensures r.Some? ==> IsNet(r.value)
  {
    MatchNet(Strip(line))
  }

  /** What `capture` finds in each line, for the lines where it finds something, in order. */
  function Captures(lines: seq<string>, capture: string -> Option<string>): (found: seq<string>)
    ensures |found| <= |lines|
    decreases |lines|
  {
    if |lines| == 0 then []
    else
      var prev := Captures(lines[..|lines| - 1], capture);
      match capture(lines[|lines| - 1])
      case None => prev
      case Some(x) => prev + [x]
  }

  /** The positions among the first `n` lines where `capture` finds something. */
  function Hits(lines: seq<string>, capture: string -> Option<string>, n: nat): set<nat> {
    set i: nat | i < n && i < |lines| && capture(lines[i]).Some?
  }

  /** One capture per line where something is found. */
  lemma {:induction false} CapturesCount(lines: seq<string>, capture: string -> Option<string>, n: nat)
    requires n <= |lines|
    ensures |Captures(lines[..n], capture)| == |Hits(lines, capture, n)|
  {
    if n > 0 {
      CapturesCount(lines, capture, n - 1);
      var prefix := lines[..n];
      assert prefix[..n - 1] == lines[..n - 1];
      var before := Hits(lines, capture, n - 1);
      assert n - 1 !in before;
      if capture(lines[n - 1]).Some? {
        assert Hits(lines, capture, n) == before + {n - 1};
      } else {
        assert Hits(lines, capture, n) == before;
      }
    } else {
      assert Hits(lines, capture, 0) == {};
    }
  }

  /** Each net followed by a line break. */
  function NetLines(nets: seq<string>): string {
    if |nets| == 0 then "" else nets[0] + "\n" + NetLines(nets[1..])
  }

  /**
    The characters at which reading a text file in universal-newline mode
    ends a line.  A `"\r\n"` pair becomes two breaks here, with an empty
    line between them that names no net.
  */
  const ReportBreaks: set<char> := {'\n', '\r'}

  /**
    `get_antenna_nets`: the nets of the report lines, written one per line,
    and their count.
  */
  function AntennaNets(report: string): (r: (string, nat)) {
    var nets := Captures(Split(report, ReportBreaks), NetOfLine);
    (NetLines(nets), |nets|)
  }

  /**
    The count is the number of report lines that name a net, and the output
    lists exactly the captured nets, each a non-empty word, one per line.
  */
  lemma AntennaNetsCount(report: string)
    ensures var lines := Split(report, ReportBreaks);
      AntennaNets(report).1 == |Hits(lines, NetOfLine, |lines|)|
    ensures var nets := Captures(Split(report, ReportBreaks), NetOfLine);
      && (forall j :: 0 <= j < |nets| ==> IsNet(nets[j]))
      && Split(AntennaNets(report).0, {'\n'}) == nets + [""]
  {
    var lines := Split(report, ReportBreaks);
    CapturesCount(lines, NetOfLine, |lines|);
    assert lines[..|lines|] == lines;
    var nets := Captures(lines, NetOfLine);
    CapturesSatisfy(lines, NetOfLine, IsNet);
    NetsAvoidBreaks(nets);
    NetLinesRoundTrip(nets);
  }

  /** When every capture satisfies `p`, so does everything captured. */
  lemma {:induction false} CapturesSatisfy(lines: seq<string>, capture: string -> Option<string>, p: string -> bool)
    requires forall line :: capture(line).Some? ==> p(capture(line).value)
    ensures var found := Captures(lines, capture);
      forall j :: 0 <= j < |found| ==> p(found[j])
    decreases |lines|
  {
    if |lines| > 0 {
      var prev := lines[..|lines| - 1];
      CapturesSatisfy(prev, capture, p);
      var last := capture(lines[|lines| - 1]);
      assert Captures(lines, capture) == if last.Some? then Captures(prev, capture) + [last.value] else Captures(prev, capture);
    }
  }

  /** Nets hold no line break. */
  lemma NetsAvoidBreaks(nets: seq<string>)
    requires forall j :: 0 <= j < |nets| ==> IsNet(nets[j])
    ensures forall j :: 0 <= j < |nets| ==> Avoids(nets[j], {'\n'})
  {
  }

  /** Reading the output back, line by line, gives the nets. */
  lemma {:induction false} NetLinesRoundTrip(nets: seq<string>)
    requires forall i :: 0 <= i < |nets| ==> Avoids(nets[i], {'\n'})
    ensures Split(NetLines(nets), {'\n'}) == nets + [""]
    decreases |nets|
  {
    if |nets| > 0 {
      NetLinesRoundTrip(nets[1..]);
      SplitAfterSeparator(nets[0], '\n', NetLines(nets[1..]), {'\n'});
      assert nets == [nets[0]] + nets[1..];
    }
  }
}
