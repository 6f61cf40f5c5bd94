/** Merging the strategies' trim decisions into one entry per enabled rule. */
module Trim {
  import opened Prelude
  import opened Keys
  import opened Evaluation
  import opened RuleStore
  import Sorting

  datatype FunctionType = SAFE | ITER

  datatype TrimDecision = TrimDecision(
    rule: RuleId, rev: int, sourceFile: string, msg: string,
    reason: string, fn: string, typ: FunctionType, metrics: map<string, real>)

  datatype TrimmedRule = TrimmedRule(
    rule: RuleId, rev: int, sourceFile: string, msg: string,
    reasons: seq<string>, functions: seq<string>, runID: int, typ: FunctionType, metrics: map<string, real>)

  function ChooseRev(candidate: int, fallback: int): int {
    if candidate != 0 then candidate else fallback
  }

  function FirstNonEmpty(a: string, b: string): string {
    if TrimSpace(a) != "" then a else if TrimSpace(b) != "" then b else ""
  }

  function AppendUnique(values: seq<string>, value: string): seq<string> {
    if value == "" || value in values then values else values + [value]
  }

  /** A rule's first decision opens its entry. */
  function Open(d: TrimDecision, row: Rule, run: int, typ: FunctionType): TrimmedRule {
    TrimmedRule(d.rule, ChooseRev(d.rev, row.rev), FirstNonEmpty(d.sourceFile, row.sourceFile),
                FirstNonEmpty(d.msg, row.msg), [], [], run, typ, map[])
  }

  /** Every decision adds its reason, its function's name and its metrics. */
  function AddTo(t: TrimmedRule, d: TrimDecision): TrimmedRule {
    t.(reasons := AppendUnique(t.reasons, TrimSpace(d.reason)),
       functions := AppendUnique(t.functions, TrimSpace(d.fn)),
       metrics := t.metrics + d.metrics)
  }

  /** The entry of rule `r` after the decisions in `raw`: none if the rule is not enabled or no
      decision names it. */
  function EntryOf(table: Table, run: int, typ: FunctionType, raw: seq<TrimDecision>, r: RuleId): (e: Option<TrimmedRule>)
    ensures e.Some? ==> e.value.rule == r && e.value.runID == run && e.value.typ == typ
  {
    if raw == [] then None else
    var d, front := raw[|raw| - 1], EntryOf(table, run, typ, raw[..|raw| - 1], r);
    if d.rule != r || r !in Enabled(table, run) then front
    else if front.Some? then Some(AddTo(front.value, d))
    else
      assert RowId(run, r) in table;
      Some(AddTo(Open(d, table[RowId(run, r)], run, typ), d))
  }

  ghost predicate Named(raw: seq<TrimDecision>, r: RuleId) {
    exists d :: d in raw && d.rule == r
  }

  lemma {:induction false} EntryExists(table: Table, run: int, typ: FunctionType, raw: seq<TrimDecision>, r: RuleId)
    ensures EntryOf(table, run, typ, raw, r).Some? <==> r in Enabled(table, run) && Named(raw, r)
  {
    if raw != [] {
      var front, d := raw[..|raw| - 1], raw[|raw| - 1];
      EntryExists(table, run, typ, front, r);
      assert raw == front + [d];
      assert d in raw;
    }
  }

  ghost predicate Distinct(s: seq<string>) {
    forall i, j :: 0 <= i < j < |s| ==> s[i] != s[j]
  }

  ghost function Elements(s: seq<string>): set<string> {
    set x | x in s
  }

  lemma AppendUniqueKeeps(values: seq<string>, value: string)
    requires Distinct(values)
    ensures Distinct(AppendUnique(values, value))
    ensures Elements(AppendUnique(values, value)) == Elements(values) + ({value} - {""})
  {
  }

  ghost function Reasons(raw: seq<TrimDecision>, r: RuleId): set<string> {
    (set d | d in raw && d.rule == r :: TrimSpace(d.reason)) - {""}
  }

  ghost function Functions(raw: seq<TrimDecision>, r: RuleId): set<string> {
    (set d | d in raw && d.rule == r :: TrimSpace(d.fn)) - {""}
  }

  lemma TextsSnoc(raw: seq<TrimDecision>, d: TrimDecision, r: RuleId)
    ensures d.rule != r ==> Reasons(raw + [d], r) == Reasons(raw, r) && Functions(raw + [d], r) == Functions(raw, r)
    ensures d.rule == r ==>
      && Reasons(raw + [d], r) == Reasons(raw, r) + ({TrimSpace(d.reason)} - {""})
      && Functions(raw + [d], r) == Functions(raw, r) + ({TrimSpace(d.fn)} - {""})
  {
    hide TrimSpace;
  }

  /** An entry's texts: without repetition, exactly the non-blank reasons and function names of
      the decisions that name the rule. */
  lemma {:induction false} EntryTexts(table: Table, run: int, typ: FunctionType, raw: seq<TrimDecision>, r: RuleId)
    requires EntryOf(table, run, typ, raw, r).Some?
    ensures
      var t := EntryOf(table, run, typ, raw, r).value;
      && Distinct(t.reasons) && Distinct(t.functions)
      && Elements(t.reasons) == Reasons(raw, r) && Elements(t.functions) == Functions(raw, r)
  {
    hide TrimSpace, Elements, AppendUnique;
    var front, d := raw[..|raw| - 1], raw[|raw| - 1];
    assert raw == front + [d];
    var f := EntryOf(table, run, typ, front, r);
    TextsSnoc(front, d, r);
    EntryExists(table, run, typ, front, r);
    if f.Some? {
      EntryTexts(table, run, typ, front, r);
      hide Reasons, Functions, Distinct;
      AppendUniqueKeeps(f.value.reasons, TrimSpace(d.reason));
      AppendUniqueKeeps(f.value.functions, TrimSpace(d.fn));
    } else {
      assert Elements([]) == {} by { NoElements(); }
      assert Reasons(front, r) == {} && Functions(front, r) == {} by {
        assert !Named(front, r);
        assert forall x :: x in front ==> x.rule != r;
      }
      AppendUniqueKeeps([], TrimSpace(d.reason));
      AppendUniqueKeeps([], TrimSpace(d.fn));
    }
  }

  lemma NoElements()
    ensures Elements([]) == {}
  {
  }

  /** One more decision only appends to the texts, so they stand in the order in which they were
      first given. */
  lemma TextsInOrder(table: Table, run: int, typ: FunctionType, raw: seq<TrimDecision>, d: TrimDecision, r: RuleId)
    requires EntryOf(table, run, typ, raw, r).Some?
    ensures
      var was, now := EntryOf(table, run, typ, raw, r), EntryOf(table, run, typ, raw + [d], r);
      now.Some? && was.value.reasons <= now.value.reasons && was.value.functions <= now.value.functions
  {
    hide TrimSpace;
    assert (raw + [d])[..|raw|] == raw;
  }

  /** Decision `i` is the first that names the rule. */
  ghost predicate FirstNaming(raw: seq<TrimDecision>, r: RuleId, i: nat) {
    i < |raw| && raw[i].rule == r && forall k :: 0 <= k < i ==> raw[k].rule != r
  }

  /** The text is the first of the two that is not blank, or empty. */
  ghost predicate Preferred(text: string, first: string, second: string) {
    text == if TrimSpace(first) != "" then first else if TrimSpace(second) != "" then second else ""
  }

  /** What an entry takes from the first decision that names its rule, with the rule's row behind it. */
  ghost predicate OpenedBy(t: TrimmedRule, d: TrimDecision, row: Rule) {
    && t.rev == (if d.rev != 0 then d.rev else row.rev)
    && Preferred(t.sourceFile, d.sourceFile, row.sourceFile) && Preferred(t.msg, d.msg, row.msg)
  }

  /** Decision `i` names the rule and is the last such that gives the metric. */
  ghost predicate LastGiving(raw: seq<TrimDecision>, r: RuleId, name: string, i: nat) {
    && i < |raw| && raw[i].rule == r && name in raw[i].metrics
    && forall k :: i < k < |raw| && raw[k].rule == r ==> name !in raw[k].metrics
  }

  lemma OpenMeaning(d: TrimDecision, row: Rule, run: int, typ: FunctionType)
    ensures OpenedBy(AddTo(Open(d, row, run, typ), d), d, row)
    ensures AddTo(Open(d, row, run, typ), d).metrics == d.metrics
  {
    hide TrimSpace;
    assert map[] + d.metrics == d.metrics;
  }

  /** Revision, source file and message of an entry come from the first decision that names its rule,
      with the rule's row as the fallback. */
  lemma {:induction false} EntryFields(table: Table, run: int, typ: FunctionType, raw: seq<TrimDecision>, r: RuleId, i: nat)
    requires FirstNaming(raw, r, i) && r in Enabled(table, run)
    ensures RowId(run, r) in table && EntryOf(table, run, typ, raw, r).Some?
    ensures OpenedBy(EntryOf(table, run, typ, raw, r).value, raw[i], table[RowId(run, r)])
  {
    hide TrimSpace, Preferred, Open, AppendUnique;
    assert RowId(run, r) in table;
    var front, d := raw[..|raw| - 1], raw[|raw| - 1];
    if i < |raw| - 1 {
      EntryFields(table, run, typ, front, r, i);
    } else {
      NoEntry(table, run, typ, front, r);
      OpenMeaning(d, table[RowId(run, r)], run, typ);
    }
  }

  lemma {:induction false} NoEntry(table: Table, run: int, typ: FunctionType, raw: seq<TrimDecision>, r: RuleId)
    requires forall k :: 0 <= k < |raw| ==> raw[k].rule != r
    ensures EntryOf(table, run, typ, raw, r).None?
  {
    if raw != [] {
      NoEntry(table, run, typ, raw[..|raw| - 1], r);
    }
  }

  /** A metric of an entry is the last one that a decision naming its rule gives under that name. */
  lemma {:induction false} EntryMetrics(table: Table, run: int, typ: FunctionType, raw: seq<TrimDecision>, r: RuleId, name: string)
    requires EntryOf(table, run, typ, raw, r).Some?
    ensures
      var t := EntryOf(table, run, typ, raw, r).value;
      && (name in t.metrics <==> exists i: nat :: LastGiving(raw, r, name, i))
      && forall i: nat :: LastGiving(raw, r, name, i) ==> t.metrics[name] == raw[i].metrics[name]
  {
    hide TrimSpace, AppendUnique, LastGiving;
    var front, d := raw[..|raw| - 1], raw[|raw| - 1];
    var f := EntryOf(table, run, typ, front, r);
    LastGivingStep(raw, r, name);
    EntryExists(table, run, typ, front, r);
    if f.Some? {
      EntryMetrics(table, run, typ, front, r, name);
      if d.rule == r && name in d.metrics {
        assert LastGiving(raw, r, name, |raw| - 1);
      } else {
        var t := EntryOf(table, run, typ, raw, r).value;
        assert name in t.metrics <==> name in f.value.metrics;
        if i: nat :| LastGiving(front, r, name, i) {
          assert LastGiving(raw, r, name, i);
        }
        forall i: nat | LastGiving(raw, r, name, i) ensures t.metrics[name] == raw[i].metrics[name] {
          assert LastGiving(front, r, name, i) && front[i] == raw[i];
        }
      }
    } else {
      NoneGiving(table, run, typ, front, r, name);
      OpenMeaning(d, table[RowId(run, r)], run, typ);
    }
  }

  lemma LastGivingStep(raw: seq<TrimDecision>, r: RuleId, name: string)
    requires raw != []
    ensures
      var n := |raw| - 1;
      var here := raw[n].rule == r && name in raw[n].metrics;
      forall i: nat :: LastGiving(raw, r, name, i) <==> if here then i == n else LastGiving(raw[..n], r, name, i)
    ensures var n := |raw| - 1; forall i: nat :: LastGiving(raw[..n], r, name, i) ==> i < n && name in raw[i].metrics
  {
  }

  lemma NoneGiving(table: Table, run: int, typ: FunctionType, raw: seq<TrimDecision>, r: RuleId, name: string)
    requires EntryOf(table, run, typ, raw, r).None? && r in Enabled(table, run)
    ensures forall i: nat :: !LastGiving(raw, r, name, i)
  {
    EntryExists(table, run, typ, raw, r);
    hide EntryOf;
    assert forall i :: 0 <= i < |raw| ==> raw[i] in raw;
  }

  // ----- ordering -----

  predicate RuleLess(a: RuleId, b: RuleId) {
    a.gid < b.gid || (a.gid == b.gid && a.sid < b.sid)
  }

  predicate NotAfter(a: TrimmedRule, b: TrimmedRule) {
    !RuleLess(b.rule, a.rule)
  }

  ghost predicate Ascending(s: seq<TrimmedRule>) {
    forall i, j :: 0 <= i < j < |s| ==> RuleLess(s[i].rule, s[j].rule)
  }

  /** The entries are in the order of their generator ids, and with equal ones of their signature
      ids. */
  lemma AscendingOrder(s: seq<TrimmedRule>, i: nat, j: nat)
    requires Ascending(s) && i < j < |s|
    ensures
      var a, b := s[i].rule, s[j].rule;
      a.gid < b.gid || (a.gid == b.gid && a.sid < b.sid)
  {
    assert RuleLess(s[i].rule, s[j].rule);
  }

  function Ids(s: seq<TrimmedRule>): set<RuleId> {
    set t | t in s :: t.rule
  }

  lemma {:induction false} AscendingSize(s: seq<TrimmedRule>)
    requires Ascending(s)
    ensures |Ids(s)| == |s|
  {
    if s != [] {
      var front, last := s[..|s| - 1], s[|s| - 1];
      AscendingSize(front);
      assert s == front + [last];
      assert last.rule !in Ids(front);
      assert Ids(s) == Ids(front) + {last.rule};
    }
  }

  /** What aggregation returns: one entry per enabled rule that some decision names, ordered by
      rule. It is determined by its arguments, whatever the map order and the sort do. */
  ghost predicate Aggregated(table: Table, run: int, typ: FunctionType, raw: seq<TrimDecision>, out: seq<TrimmedRule>) {
    && Ascending(out)
    && (forall r :: r in Ids(out) <==> r in Enabled(table, run) && Named(raw, r))
    && (forall t :: t in out ==> EntryOf(table, run, typ, raw, t.rule) == Some(t))
  }

  method AggregateAndEnrich(table: Table, run: int, typ: FunctionType, raw: seq<TrimDecision>)
      returns (out: seq<TrimmedRule>)
    ensures Aggregated(table, run, typ, raw, out)
  {
    if |raw| == 0 { return []; }
    hide TrimSpace, Open, AddTo;
    var enabled := Enabled(table, run);
    var merged: map<RuleId, TrimmedRule> := map[];
    for i := 0 to |raw|
      invariant forall r :: EntryOf(table, run, typ, raw[..i], r) == if r in merged then Some(merged[r]) else None
    {
      var d := raw[i];
      assert raw[..i + 1][..i] == raw[..i];
      if d.rule !in enabled { continue; }
      assert RowId(run, d.rule) in table;
      var current := if d.rule in merged then merged[d.rule] else Open(d, table[RowId(run, d.rule)], run, typ);
      ghost var before := merged;
      assert EntryOf(table, run, typ, raw[..i], d.rule) == if d.rule in before then Some(before[d.rule]) else None;
      merged := merged[d.rule := AddTo(current, d)];
    }
    assert raw[..|raw|] == raw;
    forall r ensures r in merged <==> r in Enabled(table, run) && Named(raw, r) { EntryExists(table, run, typ, raw, r); }
    hide EntryOf, Enabled, Named;
    var entries := Collect(merged);
    OrderIsTotal();
    out := Sorting.SortSlice(entries, NotAfter);
    Sorting.SameElements(entries, out);
    SortedDistinct(entries, out);
  }

  /** Ranging over the map, in an unspecified order. */
  method Collect(merged: map<RuleId, TrimmedRule>) returns (entries: seq<TrimmedRule>)
    requires forall r :: r in merged ==> merged[r].rule == r
    ensures forall t :: t in entries <==> t.rule in merged && merged[t.rule] == t
    ensures forall i, j :: 0 <= i < j < |entries| ==> entries[i].rule != entries[j].rule
  {
    entries := [];
    var todo := merged.Keys;
    while todo != {}
      invariant todo <= merged.Keys
      invariant forall t :: t in entries <==> t.rule in merged.Keys - todo && merged[t.rule] == t
      invariant forall i, j :: 0 <= i < j < |entries| ==> entries[i].rule != entries[j].rule
      decreases todo
    {
      var r :| r in todo;
      entries := entries + [merged[r]];
      todo := todo - {r};
    }
  }

  lemma OrderIsTotal()
    ensures Sorting.TotalPreorder(NotAfter)
  {
  }

  lemma SortedDistinct(entries: seq<TrimmedRule>, out: seq<TrimmedRule>)
    requires Sorting.SortOf(entries, out, NotAfter)
    requires forall i, j :: 0 <= i < j < |entries| ==> entries[i].rule != entries[j].rule
    ensures Ascending(out)
  {
    forall i, j | 0 <= i < j < |out| ensures RuleLess(out[i].rule, out[j].rule) {
      if out[i].rule == out[j].rule {
        SameRuleTwice(entries, out, i, j);
        assert false;
      }
    }
  }

  lemma SameRuleTwice(entries: seq<TrimmedRule>, out: seq<TrimmedRule>, i: nat, j: nat)
    requires multiset(entries) == multiset(out) && i < j < |out| && out[i].rule == out[j].rule
    ensures exists k, l :: 0 <= k < l < |entries| && entries[k].rule == entries[l].rule
  {
    Sorting.SameElements(entries, out);
    var a, b := out[i], out[j];
    assert a in out && b in out;
    if a != b {
      var k :| 0 <= k < |entries| && entries[k] == a;
      var l :| 0 <= l < |entries| && entries[l] == b;
      if k > l { assert entries[l].rule == entries[k].rule; }
    } else {
      TwiceInSeq(out, i, j);
      var k :| 0 <= k < |entries| && entries[k] == a;
      assert entries == entries[..k] + [a] + entries[k + 1..];
      assert multiset(entries)[a] >= 2;
      assert a in multiset(entries[..k]) + multiset(entries[k + 1..]);
      if a in entries[..k] {
        var l :| 0 <= l < k && entries[l] == a;
      } else {
        assert a in entries[k + 1..];
        var l :| k + 1 <= l < |entries| && entries[l] == a;
      }
    }
  }

  lemma TwiceInSeq(s: seq<TrimmedRule>, i: nat, j: nat)
    requires i < j < |s| && s[i] == s[j]
    ensures multiset(s)[s[i]] >= 2
  {
    assert s == s[..i] + [s[i]] + s[i + 1..j] + [s[j]] + s[j + 1..];
  }

  /** More decisions never lose a rule: aggregation keeps inclusion, between any two tables that
      enable the same rules in the run. */
  lemma AggregationMonotone(table: Table, table': Table, run: int, typ: FunctionType,
                            raw: seq<TrimDecision>, raw': seq<TrimDecision>,
                            out: seq<TrimmedRule>, out': seq<TrimmedRule>)
    requires Aggregated(table, run, typ, raw, out) && Aggregated(table', run, typ, raw', out')
    requires Enabled(table, run) == Enabled(table', run)
    requires forall d :: d in raw ==> Named(raw', d.rule)
    ensures Ids(out) <= Ids(out')
  {
    hide EntryOf, Enabled;
    forall r | r in Ids(out) ensures r in Ids(out') {
      var d :| d in raw && d.rule == r;
    }
  }
}
