/** The server's selection of strategies and its estimate of the number of runs. */
module Server {
  import opened Prelude
  import opened Trim
  import opened SchedulerState
  import opened Scheduler

  /** The built-in strategies, in registration order. */
  const BUILTIN: seq<RegisteredFunction> := [
    RegisteredFunction("safe_source_file_browser", SAFE),
    RegisteredFunction("safe_source_file_protocols", SAFE),
    RegisteredFunction("safe_inactive_systemd_services", SAFE),
    RegisteredFunction("safe_orphan_flowbits", SAFE),
    RegisteredFunction("iter_protocol_alert_overlap", ITER),
    RegisteredFunction("iter_high_fp_low_utilization", ITER),
    RegisteredFunction("iter_low_yield_hot_rules", ITER),
    RegisteredFunction("iter_high_cost_rules", ITER)]

  const DEFAULT_MAX_ROUND: int := 4

  ghost function Known(specs: seq<RegisteredFunction>): set<string> {
    set f | f in specs :: f.name
  }

  /** The names selected by the list of enabled names, read from left to right: "all" adds every
      strategy and "none" drops what was selected so far. */
  ghost function Chosen(specs: seq<RegisteredFunction>, enabled: seq<string>): set<string> {
    if enabled == [] then {} else
    var last, front := enabled[|enabled| - 1], Chosen(specs, enabled[..|enabled| - 1]);
    if last == "all" then front + Known(specs) else if last == "none" then {} else front + {last}
  }

  /** The selection of a request: everything when no name is enabled. */
  ghost function Selection(specs: seq<RegisteredFunction>, enabled: seq<string>, disabled: seq<string>): set<string> {
    (if enabled == [] then Known(specs) else Chosen(specs, enabled)) - (set x | x in disabled)
  }

  ghost predicate AllKnown(specs: seq<RegisteredFunction>, enabled: seq<string>, disabled: seq<string>) {
    && (forall i :: 0 <= i < |enabled| ==> enabled[i] == "all" || enabled[i] == "none" || enabled[i] in Known(specs))
    && (forall i :: 0 <= i < |disabled| ==> disabled[i] in Known(specs))
  }

  function Picked(functions: seq<RegisteredFunction>, names: set<string>): seq<RegisteredFunction> {
    if functions == [] then [] else
    Picked(functions[..|functions| - 1], names)
    + if functions[|functions| - 1].name in names then [functions[|functions| - 1]] else []
  }

  /** Entry `i` selects the strategy, by its name or with all others, and no later one drops it. */
  ghost predicate ChosenBy(specs: seq<RegisteredFunction>, enabled: seq<string>, name: string, i: nat) {
    && i < |enabled| && (forall j :: i < j < |enabled| ==> enabled[j] != "none")
    && if enabled[i] == "all" then exists f :: f in specs && f.name == name
       else enabled[i] == name && name != "none"
  }

  lemma {:induction false} ChosenExactly(specs: seq<RegisteredFunction>, enabled: seq<string>, name: string)
    ensures name in Chosen(specs, enabled) <==> exists i: nat :: ChosenBy(specs, enabled, name, i)
  {
    if enabled != [] {
      var n := |enabled| - 1;
      ChosenExactly(specs, enabled[..n], name);
      ChosenStep(specs, enabled, name, n);
      hide ChosenBy;
      assert ChosenBy(specs, enabled, name, n) ==> name in Chosen(specs, enabled);
      if enabled[n] != "none" {
        if i: nat :| ChosenBy(specs, enabled[..n], name, i) {
          assert ChosenBy(specs, enabled, name, i);
        }
        if i: nat :| ChosenBy(specs, enabled, name, i) {
          assert i == n || ChosenBy(specs, enabled[..n], name, i);
        }
      }
    }
  }

  lemma ChosenStep(specs: seq<RegisteredFunction>, enabled: seq<string>, name: string, n: nat)
    requires |enabled| == n + 1
    ensures forall i: nat :: ChosenBy(specs, enabled, name, i) ==> i <= n
    ensures forall i: nat :: i < n ==> (ChosenBy(specs, enabled, name, i) <==> enabled[n] != "none" && ChosenBy(specs, enabled[..n], name, i))
    ensures forall i: nat :: ChosenBy(specs, enabled[..n], name, i) ==> i < n
    ensures ChosenBy(specs, enabled, name, n)
       <==> if enabled[n] == "all" then name in Known(specs) else enabled[n] == name && name != "none"
  {
  }

  /** The places of the strategies whose names were selected, in order. */
  ghost predicate SelectedPlaces(specs: seq<RegisteredFunction>, names: set<string>, places: seq<nat>) {
    && Ascends(places, |specs|)
    && forall k :: 0 <= k < |specs| ==> (k in places <==> specs[k].name in names)
  }

  lemma {:induction false} PickedInOrder(specs: seq<RegisteredFunction>, names: set<string>) returns (places: seq<nat>)
    ensures SelectedPlaces(specs, names, places) && |Picked(specs, names)| == |places|
    ensures forall i :: 0 <= i < |places| ==> Picked(specs, names)[i] == specs[places[i]]
  {
    if specs == [] {
      places := [];
    } else {
      var n := |specs| - 1;
      places := PickedInOrder(specs[..n], names);
      assert forall i :: 0 <= i < |places| ==> specs[..n][places[i]] == specs[places[i]];
      AscendsMore(places, n);
      if specs[n].name in names {
        places := places + [n];
      }
    }
  }

  /** What a request selects: with no enabled name everything, otherwise what the enabled names add
      up to, in both cases without the disabled names. */
  lemma SelectionExactly(specs: seq<RegisteredFunction>, enabled: seq<string>, disabled: seq<string>, name: string)
    ensures name in Selection(specs, enabled, disabled) <==>
      && name !in disabled
      && if enabled == [] then exists f :: f in specs && f.name == name
         else exists i: nat :: ChosenBy(specs, enabled, name, i)
  {
    ChosenExactly(specs, enabled, name);
    hide Chosen, ChosenBy;
  }

  /** Fails exactly when a name is unknown; otherwise the selected strategies in the order of `specs`. */
  method SelectedStrategies(specs: seq<RegisteredFunction>, enabled: seq<string>, disabled: seq<string>)
      returns (r: Result<seq<RegisteredFunction>>)
    ensures r.Ok? <==> AllKnown(specs, enabled, disabled)
    ensures r.Ok? ==> r.value == Picked(specs, Selection(specs, enabled, disabled))
  {
    var known := set f | f in specs :: f.name;
    var ok, selected := true, known;
    if |enabled| > 0 {
      ok, selected := ReadEnabled(specs, known, enabled);
      if !ok { return Err("unknown strategy"); }
    }
    ghost var chosen := selected;
    hide Known, Chosen, Picked;
    for i := 0 to |disabled|
      invariant selected == chosen - set x | x in disabled[..i]
      invariant forall j :: 0 <= j < i ==> disabled[j] in Known(specs)
    {
      if disabled[i] !in known { return Err(disabled[i]); }
      assert disabled[..i + 1] == disabled[..i] + [disabled[i]];
      selected := selected - {disabled[i]};
    }
    assert disabled[..|disabled|] == disabled;
    var out := Pick(specs, selected);
    r := Ok(out);
  }

  /** The loop over the enabled names. */
  method ReadEnabled(specs: seq<RegisteredFunction>, known: set<string>, enabled: seq<string>)
      returns (ok: bool, selected: set<string>)
    requires known == Known(specs)
    ensures ok <==> forall i :: 0 <= i < |enabled| ==> enabled[i] == "all" || enabled[i] == "none" || enabled[i] in Known(specs)
    ensures ok ==> selected == Chosen(specs, enabled)
  {
    hide Known;
    selected := {};
    for i := 0 to |enabled|
      invariant selected == Chosen(specs, enabled[..i])
      invariant forall j :: 0 <= j < i ==> enabled[j] == "all" || enabled[j] == "none" || enabled[j] in Known(specs)
    {
      assert enabled[..i + 1][..i] == enabled[..i];
      if enabled[i] == "all" {
        selected := selected + known;
      } else if enabled[i] == "none" {
        selected := {};
      } else {
        if enabled[i] !in known { return false, {}; }
        selected := selected + {enabled[i]};
      }
    }
    assert enabled[..|enabled|] == enabled;
    ok := true;
  }

  method Pick(specs: seq<RegisteredFunction>, selected: set<string>) returns (out: seq<RegisteredFunction>)
    ensures out == Picked(specs, selected)
  {
    out := [];
    for i := 0 to |specs|
      invariant out == Picked(specs[..i], selected)
    {
      assert specs[..i + 1][..i] == specs[..i];
      if specs[i].name in selected { out := out + [specs[i]]; }
    }
    assert specs[..|specs|] == specs;
  }

  predicate HasPrefix(s: string, prefix: string) {
    prefix <= s
  }

  /** The prefixes the estimate looks at are the strategies' types. */
  lemma PrefixIsType()
    ensures forall i :: 0 <= i < |BUILTIN| ==>
      && (HasPrefix(BUILTIN[i].name, "safe_") <==> BUILTIN[i].typ == SAFE)
      && (HasPrefix(BUILTIN[i].name, "iter_") <==> BUILTIN[i].typ == ITER)
  {
    forall i | 0 <= i < |BUILTIN| ensures BUILTIN[i].name[0] == if BUILTIN[i].typ == SAFE then 's' else 'i' {
    }
  }

  /** What the scheduler is configured with: non-positive rounds mean the default. */
  function Rounds(maxRound: int): int {
    if maxRound <= 0 then DEFAULT_MAX_ROUND else maxRound
  }

  lemma {:induction false} PickedFrom(functions: seq<RegisteredFunction>, names: set<string>)
    ensures forall f :: f in Picked(functions, names) ==> f in functions
  {
    if functions != [] { PickedFrom(functions[..|functions| - 1], names); }
  }

  /** The names follow the convention the estimate relies on. */
  ghost predicate WellNamed(fs: seq<RegisteredFunction>) {
    forall f :: f in fs ==>
      && (HasPrefix(f.name, "safe_") <==> f.typ == SAFE)
      && (HasPrefix(f.name, "iter_") <==> f.typ == ITER)
  }

  lemma SelectionWellNamed(names: set<string>)
    ensures WellNamed(Picked(BUILTIN, names))
  {
    PrefixIsType();
    PickedFrom(BUILTIN, names);
    hide HasPrefix, Picked;
    forall f | f in Picked(BUILTIN, names)
      ensures (HasPrefix(f.name, "safe_") <==> f.typ == SAFE) && (HasPrefix(f.name, "iter_") <==> f.typ == ITER)
    {
      var i :| 0 <= i < |BUILTIN| && BUILTIN[i] == f;
    }
  }

  /** The places of the strategies of a type. */
  ghost function TypedPlaces(fs: seq<RegisteredFunction>, typ: FunctionType): set<nat> {
    set i: nat | i < |fs| && fs[i].typ == typ
  }

  lemma {:induction false} TypedCount(fs: seq<RegisteredFunction>, typ: FunctionType)
    ensures |OfType(fs, typ)| == |TypedPlaces(fs, typ)|
  {
    if fs == [] {
      assert TypedPlaces(fs, typ) == {};
    } else {
      var n := |fs| - 1;
      TypedCount(fs[..n], typ);
      TypedStep(fs, typ, n);
    }
  }

  lemma TypedStep(fs: seq<RegisteredFunction>, typ: FunctionType, n: nat)
    requires |fs| == n + 1
    ensures |TypedPlaces(fs, typ)| == |TypedPlaces(fs[..n], typ)| + if fs[n].typ == typ then 1 else 0
  {
    var front := TypedPlaces(fs[..n], typ);
    assert TypedPlaces(fs, typ) == if fs[n].typ == typ then front + {n} else front;
  }

  /** The estimate counts names by prefix; it is exactly the bound proved for the scheduler. */
  method ExpectedAnalysisRuns(maxRound: int, selected: Result<seq<RegisteredFunction>>, cfg: Config) returns (expected: int)
    requires selected.Ok? ==> WellNamed(selected.value)
    requires cfg.maxRound == if maxRound <= 0 then 4 else maxRound
    ensures selected.Err? ==> expected == 18
    ensures selected.Ok? ==> expected == MaxRuns(cfg, selected.value)
    ensures selected.Ok? ==>
      var safe, iters := |TypedPlaces(selected.value, SAFE)|, |TypedPlaces(selected.value, ITER)|;
      expected == 1 + (if safe > 0 then 1 else 0) + iters * cfg.maxRound
  {
    if selected.Ok? {
      TypedCount(selected.value, SAFE);
      TypedCount(selected.value, ITER);
    }
    hide HasPrefix;
    var rounds := Rounds(maxRound);
    if selected.Err? { return 18; }
    var names := selected.value;
    var safeEnabled, iterCount := false, 0;
    for i := 0 to |names|
      invariant safeEnabled <==> OfType(names[..i], SAFE) != []
      invariant iterCount == |OfType(names[..i], ITER)|
    {
      assert names[..i + 1][..i] == names[..i];
      assert names[i] in names;
      if HasPrefix(names[i].name, "safe_") { safeEnabled := true; }
      if HasPrefix(names[i].name, "iter_") { iterCount := iterCount + 1; }
    }
    assert names[..|names|] == names;
    expected := 1 + iterCount * rounds;
    if safeEnabled { expected := expected + 1; }
  }
}
