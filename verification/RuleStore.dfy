/** The versioned rule table of one snort instance, and cloning one version into the next. */
module RuleStore {
  import opened Evaluation

  datatype Rule = Rule(rev: int, enabled: bool, sourceFile: string, msg: string, rawText: string)

  /** A row's primary key: the run it belongs to and the rule. */
  datatype RowId = RowId(run: int, rule: RuleId)

  type Table = map<RowId, Rule>

  /** The rows of one run. */
  ghost function RunRows(t: Table, run: int): map<RuleId, Rule> {
    map k | k in t && k.run == run :: k.rule := t[k]
  }

  /** The rules one run has enabled. */
  function Enabled(t: Table, run: int): set<RuleId> {
    set k | k in t && k.run == run && t[k].enabled :: k.rule
  }

  function DeleteRun(t: Table, run: int): Table {
    map k | k in t && k.run != run :: t[k]
  }

  function CopyRun(t: Table, from: int, to: int): Table {
    map k | k in t && k.run == from :: RowId(to, k.rule) := t[k]
  }

  function DisableRow(t: Table, id: RowId): Table {
    if id in t then t[id := t[id].(enabled := false)] else t
  }

  /** The table after a clone: run `to` is run `from` with the rules in `off` disabled. */
  ghost function Cloned(t: Table, from: int, to: int, off: set<RuleId>): Table {
    var d := DeleteRun(t, to);
    var c := d + CopyRun(d, from, to);
    map k | k in c :: if k.run == to && k.rule in off then c[k].(enabled := false) else c[k]
  }

  class RuleDB {
    var rules: Table

    /** One transaction: it takes effect as a whole, or not at all when the database fails. */
    method CloneRulesInDB(from: int, to: int, decisions: seq<RuleId>, fault: bool) returns (ok: bool)
      modifies this
      ensures ok == !fault
      ensures rules == if ok then Cloned(old(rules), from, to, set r | r in decisions) else old(rules)
    {
      if fault { return false; }
      hide DeleteRun, CopyRun;
      var tx := DeleteRun(rules, to);
      tx := tx + CopyRun(tx, from, to);
      ghost var c := tx;
      for i := 0 to |decisions|
        invariant tx.Keys == c.Keys
        invariant forall k :: k in c ==>
          tx[k] == if k.run == to && k.rule in decisions[..i] then c[k].(enabled := false) else c[k]
      {
        assert decisions[..i + 1] == decisions[..i] + [decisions[i]];
        tx := DisableRow(tx, RowId(to, decisions[i]));
      }
      assert decisions[..|decisions|] == decisions;
      rules := tx;
      ok := true;
    }
  }

  /** A clone touches no other run. */
  lemma CloneFrame(t: Table, from: int, to: int, off: set<RuleId>, run: int)
    requires run != to
    ensures RunRows(Cloned(t, from, to, off), run) == RunRows(t, run)
    ensures Enabled(Cloned(t, from, to, off), run) == Enabled(t, run)
  {
    var c := Cloned(t, from, to, off);
    assert forall k: RowId :: k.run == run ==> (k in c <==> k in t) && (k in t ==> c[k] == t[k]);
  }

  /** The cloned run enables what its source enables, minus what was disabled, and agrees with it
      on every other column. */
  lemma CloneEnabled(t: Table, from: int, to: int, off: set<RuleId>)
    requires from != to
    ensures Enabled(Cloned(t, from, to, off), to) == Enabled(t, from) - off
    ensures SameButEnabled(RunRows(t, from), RunRows(Cloned(t, from, to, off), to))
  {
    CloneRow(t, from, to, off);
    var c := Cloned(t, from, to, off);
    hide Cloned;
    forall r ensures r in Enabled(c, to) <==> r in Enabled(t, from) - off {
      assert r in Enabled(c, to) <==> RowId(to, r) in c && c[RowId(to, r)].enabled;
      assert r in Enabled(t, from) <==> RowId(from, r) in t && t[RowId(from, r)].enabled;
    }
    RowsByRule(t, from);
    RowsByRule(c, to);
    hide RunRows;
  }

  lemma RowsByRule(t: Table, run: int)
    ensures forall r :: r in RunRows(t, run) <==> RowId(run, r) in t
    ensures forall r :: r in RunRows(t, run) ==> RunRows(t, run)[r] == t[RowId(run, r)]
  {
    var m := RunRows(t, run);
    forall r ensures r in m <==> RowId(run, r) in t {
      if RowId(run, r) in t { assert RowId(run, r).run == run && RowId(run, r).rule == r; }
    }
    forall r | r in m ensures m[r] == t[RowId(run, r)] {
      assert RowId(run, r) in t;
    }
  }

  lemma CloneRow(t: Table, from: int, to: int, off: set<RuleId>)
    requires from != to
    ensures
      var c := Cloned(t, from, to, off);
      forall r :: (RowId(to, r) in c <==> RowId(from, r) in t)
              && (RowId(from, r) in t ==>
                    c[RowId(to, r)] == if r in off then t[RowId(from, r)].(enabled := false) else t[RowId(from, r)])
  {
    var d := DeleteRun(t, to);
    var cp := CopyRun(d, from, to);
    forall r ensures RowId(to, r) in cp <==> RowId(from, r) in t {
      if RowId(from, r) in t { assert RowId(from, r) in d; }
    }
    forall r | RowId(from, r) in t ensures cp[RowId(to, r)] == t[RowId(from, r)] {
      assert RowId(from, r) in d;
    }
  }

  ghost predicate SameButEnabled(a: map<RuleId, Rule>, b: map<RuleId, Rule>) {
    && a.Keys == b.Keys
    && forall r :: r in a ==> b[r] == a[r].(enabled := b[r].enabled)
  }
}
