/** Removing the rules whose flowbits have no enabled provider, against the detection engine's own
    reading of flowbits. */
module Flowbits {
  import opened Prelude
  import opened Keys
  import opened Evaluation
  import opened Trim
  import opened FlowbitsText

  // ----- the strategy -----

  /** An enabled rule of the source run. */
  datatype Row = Row(rule: RuleId, rev: int, sourceFile: string, msg: string, raw: string)

  function Provided(rows: seq<Row>): set<string> {
    set row, bit | row in rows && bit in BitsOf(row.raw).offers :: bit
  }

  predicate IsOrphan(row: Row, provided: set<string>) {
    exists bit :: bit in BitsOf(row.raw).needs && bit !in provided
  }

  function Missing(needs: seq<string>, provided: set<string>): seq<string> {
    if needs == [] then []
    else
      var bit, m := needs[|needs| - 1], Missing(needs[..|needs| - 1], provided);
      if bit in provided then m else AddUnique(m, bit)
  }

  lemma {:induction false} MissingMeaning(needs: seq<string>, provided: set<string>, bit: string)
    ensures bit in Missing(needs, provided) <==> bit in needs && bit !in provided
  {
    if needs != [] {
      var n := |needs| - 1;
      MissingMeaning(needs[..n], provided, bit);
      assert needs == needs[..n] + [needs[n]];
    }
  }

  function Decide(row: Row, missing: seq<string>): TrimDecision {
    TrimDecision(row.rule, row.rev, row.sourceFile, row.msg,
                 "flowbits dependency has no enabled provider: " + Join(missing, ","), "", SAFE, map[])
  }

  /** One decision for each orphan, in the order of the rows. */
  function Orphans(rows: seq<Row>, provided: set<string>): seq<TrimDecision> {
    if rows == [] then []
    else
      var row := rows[|rows| - 1];
      Orphans(rows[..|rows| - 1], provided)
      + if IsOrphan(row, provided) then [Decide(row, Missing(BitsOf(row.raw).needs, provided))] else []
  }

  /** The row needs a bit that nobody provides. */
  ghost predicate NeedsMore(row: Row, provided: set<string>) {
    !(forall bit :: bit in BitsOf(row.raw).needs ==> bit in provided)
  }

  /** The places of the rows that need a bit nobody provides, in order. */
  ghost predicate OrphanPlaces(rows: seq<Row>, provided: set<string>, places: seq<nat>) {
    && Ascends(places, |rows|)
    && forall k :: 0 <= k < |rows| ==> (k in places <==> NeedsMore(rows[k], provided))
  }

  /** The decision about a row: it names the row's rule and the bits that are missing. */
  ghost predicate DecisionAbout(d: TrimDecision, row: Row, provided: set<string>) {
    && d.rule == row.rule && d.rev == row.rev && d.sourceFile == row.sourceFile && d.msg == row.msg
    && exists missing: seq<string> ::
         && d.reason == "flowbits dependency has no enabled provider: " + Join(missing, ",") && NoRepeats(missing)
         && forall bit :: bit in missing <==> bit in BitsOf(row.raw).needs && bit !in provided
  }

  lemma {:induction false} MissingOnce(needs: seq<string>, provided: set<string>)
    ensures NoRepeats(Missing(needs, provided))
  {
    if needs != [] {
      MissingOnce(needs[..|needs| - 1], provided);
    }
  }

  lemma DecideMeaning(row: Row, provided: set<string>)
    ensures DecisionAbout(Decide(row, Missing(BitsOf(row.raw).needs, provided)), row, provided)
  {
    hide BitsOf, Missing, NoRepeats, Join;
    var needs := BitsOf(row.raw).needs;
    MissingOnce(needs, provided);
    forall bit ensures bit in Missing(needs, provided) <==> bit in needs && bit !in provided {
      MissingMeaning(needs, provided, bit);
    }
  }

  lemma OrphanNeeds(row: Row, provided: set<string>)
    ensures IsOrphan(row, provided) <==> NeedsMore(row, provided)
  {
    hide BitsOf;
  }

  /** The strategy decides about exactly the rules that need a bit nobody provides, one decision for
      each, in the order of the rows. */
  lemma {:induction false} OrphansInOrder(rows: seq<Row>, provided: set<string>) returns (places: seq<nat>)
    ensures OrphanPlaces(rows, provided, places) && |Orphans(rows, provided)| == |places|
    ensures forall i :: 0 <= i < |places| ==> DecisionAbout(Orphans(rows, provided)[i], rows[places[i]], provided)
  {
    hide BitsOf, Decide, DecisionAbout, Missing, IsOrphan, NeedsMore;
    if rows == [] {
      places := [];
    } else {
      var n := |rows| - 1;
      places := OrphansInOrder(rows[..n], provided);
      DecideMeaning(rows[n], provided);
      assert IsOrphan(rows[n], provided) <==> NeedsMore(rows[n], provided) by { OrphanNeeds(rows[n], provided); }
      assert forall i :: 0 <= i < |places| ==> rows[..n][places[i]] == rows[places[i]];
      AscendsMore(places, n);
      if IsOrphan(rows[n], provided) {
        places := places + [n];
      }
    }
  }

  function Needing(rows: seq<Row>): seq<Row> {
    if rows == [] then []
    else
      var row := rows[|rows| - 1];
      Needing(rows[..|rows| - 1]) + if BitsOf(row.raw).needs != [] then [row] else []
  }

  lemma {:induction false} OnlyNeedingMatter(rows: seq<Row>, provided: set<string>)
    ensures Orphans(Needing(rows), provided) == Orphans(rows, provided)
  {
    hide BitsOf, Decide;
    if rows != [] {
      var n := |rows| - 1;
      var front := Needing(rows[..n]);
      OnlyNeedingMatter(rows[..n], provided);
      if BitsOf(rows[n].raw).needs != [] {
        assert Needing(rows) == front + [rows[n]];
        assert (front + [rows[n]])[..|front|] == front;
      } else {
        assert Needing(rows) == front;
      }
    }
  }

  method OrphanFlowbits(rows: seq<Row>) returns (out: seq<TrimDecision>)
    ensures out == Orphans(rows, Provided(rows))
  {
    var provided, rules := CollectProvided(rows);
    OnlyNeedingMatter(rows, provided);
    hide BitsOf, Decide, Needing, Provided;
    out := [];
    for i := 0 to |rules|
      invariant out == Orphans(rules[..i], provided)
    {
      assert rules[..i + 1][..i] == rules[..i];
      var bits := ParseFlowbits(rules[i].raw);
      var missing := MissingBits(bits.needs, provided);
      if missing != [] {
        MissingMeaning(bits.needs, provided, missing[0]);
        out := out + [Decide(rules[i], missing)];
      } else {
        forall bit ensures !(bit in bits.needs && bit !in provided) {
          MissingMeaning(bits.needs, provided, bit);
        }
      }
    }
    assert rules[..|rules|] == rules;
  }

  method CollectProvided(rows: seq<Row>) returns (provided: set<string>, rules: seq<Row>)
    ensures provided == Provided(rows) && rules == Needing(rows)
  {
    hide BitsOf;
    provided, rules := {}, [];
    for i := 0 to |rows|
      invariant provided == Provided(rows[..i]) && rules == Needing(rows[..i])
    {
      var bits := ParseFlowbits(rows[i].raw);
      ProvidedNext(rows[..i], rows[i]);
      assert rows[..i + 1] == rows[..i] + [rows[i]] && rows[..i + 1][..i] == rows[..i];
      provided := provided + set bit | bit in bits.offers;
      if bits.needs != [] {
        rules := rules + [rows[i]];
      }
    }
    assert rows[..|rows|] == rows;
  }

  lemma ProvidedNext(rows: seq<Row>, row: Row)
    ensures Provided(rows + [row]) == Provided(rows) + set bit | bit in BitsOf(row.raw).offers
  {
    hide BitsOf;
    assert forall r :: r in rows + [row] <==> r in rows || r == row;
  }

  method MissingBits(needs: seq<string>, provided: set<string>) returns (missing: seq<string>)
    ensures missing == Missing(needs, provided)
  {
    missing := [];
    for i := 0 to |needs|
      invariant missing == Missing(needs[..i], provided)
    {
      assert needs[..i + 1][..i] == needs[..i];
      if needs[i] !in provided {
        missing := AppendUniqueString(missing, needs[i]);
      }
    }
    assert needs[..|needs|] == needs;
  }

  // ----- the engine -----

  datatype Op = SET | UNSET | IS_SET | IS_NOT_SET | NO_ALERT

  function OpName(op: Op): string {
    match op
    case SET => "set"
    case UNSET => "unset"
    case IS_SET => "isset"
    case IS_NOT_SET => "isnotset"
    case NO_ALERT => "noalert"
  }

  /** A flowbits option as the engine holds it; its names keep their letter case. */
  datatype Check = Check(op: Op, orBits: bool, bits: seq<string>)

  predicate IsSet(c: Check, on: set<string>) {
    if c.orBits then exists i :: 0 <= i < |c.bits| && c.bits[i] in on
    else forall i :: 0 <= i < |c.bits| ==> c.bits[i] in on
  }

  predicate PassesTests(checks: seq<Check>, on: set<string>) {
    forall i :: 0 <= i < |checks| && checks[i].op == IS_SET ==> IsSet(checks[i], on)
  }

  /** All the tests of a rule hold. */
  predicate Passes(checks: seq<Check>, on: set<string>) {
    PassesTests(checks, on)
    && forall i :: 0 <= i < |checks| && checks[i].op == IS_NOT_SET ==> !IsSet(checks[i], on)
  }

  function Update(c: Check, on: set<string>): set<string> {
    var bits := set b | b in c.bits;
    match c.op
    case SET => on + bits
    case UNSET => on - bits
    case _ => on
  }

  /** The setters of a rule run last, in their order. */
  function UpdateAll(checks: seq<Check>, on: set<string>): set<string> {
    if checks == [] then on else UpdateAll(checks[1..], Update(checks[0], on))
  }

  function Step(checks: seq<Check>, on: set<string>): set<string> {
    if Passes(checks, on) then UpdateAll(checks, on) else on
  }

  ghost predicate InRange(trace: seq<nat>, n: nat) {
    forall k :: 0 <= k < |trace| ==> trace[k] < n
  }

  /** The bits of a flow after a trace of rules whose other options match, one after another. */
  ghost function Final(rules: seq<seq<Check>>, trace: seq<nat>, on: set<string>): set<string>
    requires InRange(trace, |rules|)
  {
    if trace == [] then on else Final(rules, trace[1..], Step(rules[trace[0]], on))
  }

  /** The rules of the trace that fire. */
  ghost function Fired(rules: seq<seq<Check>>, trace: seq<nat>, on: set<string>): seq<nat>
    requires InRange(trace, |rules|)
  {
    if trace == [] then []
    else (if Passes(rules[trace[0]], on) then [trace[0]] else [])
         + Fired(rules, trace[1..], Step(rules[trace[0]], on))
  }

  // ----- the two readings of a rule -----

  /** The engine's splitting of an option's names. */
  function EngineNames(args: string): seq<string> {
    if '|' in args then Fields(args, c => c == '|' || CSpace(c))
    else if '&' in args then Fields(args, c => c == '&' || CSpace(c))
    else [args]
  }

  predicate CSpace(c: char) {
    c == ' ' || '\t' <= c <= '\r'
  }

  /** Names written with one kind of connective and none of the characters that only one of the two
      readers treats as a separator. */
  predicate Plain(args: string) {
    && !('|' in args && '&' in args)
    && (forall c :: c in args ==> c != ',' && c != '!' && c != '(' && c != ')')
    && (forall c :: c in args && IsSpace(c) ==> c == ' ' || c == '\t' || c == '\n' || c == '\r')
    && ('|' !in args && '&' !in args ==> args != "" && forall c :: c in args ==> !IsSpace(c))
  }

  lemma {:induction false} FieldsAreWords(s: string, sep: char -> bool)
    ensures forall i :: 0 <= i < |Fields(s, sep)| ==> Word(Fields(s, sep)[i], sep)
    ensures forall i, c :: 0 <= i < |Fields(s, sep)| && c in Fields(s, sep)[i] ==> c in s
    decreases |s|
  {
    if s == "" {
    } else if sep(s[0]) {
      FieldsAreWords(s[1..], sep);
      assert forall c :: c in s[1..] ==> c in s;
    } else {
      var n := WordLen(s, sep);
      WordLenFree(s, sep);
      FieldsAreWords(s[n..], sep);
      assert forall c :: c in s[..n] || c in s[n..] ==> c in s;
    }
  }

  /** No name contains a separator. */
  lemma NamesFree(args: string)
    ensures forall i, c :: 0 <= i < |Names(args)| && c in Names(args)[i] ==> c !in ",&|!() \t\n\r"
  {
    FieldsAreWords(args, IsSeparator);
    TrimmedChars(Fields(args, IsSeparator));
    hide Fields, Trimmed;
    forall i, c | 0 <= i < |Names(args)| && c in Names(args)[i] ensures c !in ",&|!() \t\n\r" {
      assert !IsSeparator(c);
    }
  }

  lemma {:induction false} TrimmedChars(words: seq<string>)
    ensures forall i, c :: 0 <= i < |Trimmed(words)| && c in Trimmed(words)[i] ==> exists k :: 0 <= k < |words| && c in words[k]
  {
    if words != [] {
      var n := |words| - 1;
      TrimmedChars(words[..n]);
      var front, back := TrimSpaceMeaning(words[n]);
      hide TrimSpace;
      assert forall c :: c in TrimSpace(words[n]) ==> c in words[n];
      assert forall k :: 0 <= k < n ==> words[..n][k] == words[k];
    }
  }

  lemma {:induction false} WordLenFree(s: string, sep: char -> bool)
    ensures forall i :: 0 <= i < WordLen(s, sep) ==> !sep(s[i])
  {
    if s != "" && !sep(s[0]) {
      WordLenFree(s[1..], sep);
      assert forall i :: 0 < i < |s| ==> s[i] == s[1..][i - 1];
    }
  }

  lemma TrimmedFields(low: string)
    requires forall c :: c in low && IsSpace(c) ==> IsSeparator(c)
    ensures Names(low) == Fields(low, IsSeparator)
  {
    FieldsAreWords(low, IsSeparator);
    TrimmedSame(Fields(low, IsSeparator));
  }

  lemma LowerKeeps(s: string)
    requires forall c :: c in s && IsSpace(c) ==> IsSeparator(c)
    ensures forall c :: c in ToLower(s) && IsSpace(c) ==> IsSeparator(c)
  {
    var low := ToLower(s);
    forall c | c in low && IsSpace(c) ensures IsSeparator(c) {
      var i :| 0 <= i < |low| && low[i] == c;
      assert s[i] in s && Lower(s[i]) == c;
    }
  }

  /** On plain names the strategy and the engine read the same names, up to letter case. */
  lemma NamesAgree(args: string)
    requires Plain(args)
    ensures Names(ToLower(args)) == LowerAll(EngineNames(args))
  {
    LowerKeeps(args);
    TrimmedFields(ToLower(args));
    hide Fields, IsSpace;
    if '|' in args {
      FieldsLower(args, c => c == '|' || CSpace(c), IsSeparator);
    } else if '&' in args {
      FieldsLower(args, c => c == '&' || CSpace(c), IsSeparator);
    } else {
      FieldsLower(args, IsSeparator, IsSeparator);
      FieldsOfWord(args, IsSeparator);
    }
  }

  predicate ReadsOption(c: Check, o: Flowbit) {
    o.op == OpName(c.op) && (c.op == SET || c.op == IS_SET ==> Names(o.args) == LowerAll(c.bits))
  }

  /** The engine's options are those in the text, names equal up to letter case. */
  predicate Reads(checks: seq<Check>, raw: string) {
    var values := Values(ToLower(raw), 0);
    |checks| == |values| && forall i :: 0 <= i < |values| ==> ReadsOption(checks[i], OptionOf(values[i]))
  }

  // ----- what no trace can reach -----

  predicate Within(on: set<string>, provided: set<string>) {
    forall b :: b in on ==> ToLower(b) in provided
  }

  predicate SetsWithin(checks: seq<Check>, provided: set<string>) {
    forall i, k :: 0 <= i < |checks| && checks[i].op == SET && 0 <= k < |checks[i].bits|
      ==> ToLower(checks[i].bits[k]) in provided
  }

  predicate SetsBit(c: Check, bit: string) {
    c.op == SET && exists k :: 0 <= k < |c.bits| && ToLower(c.bits[k]) == bit
  }

  predicate SetsSome(checks: seq<Check>, bit: string) {
    exists i :: 0 <= i < |checks| && SetsBit(checks[i], bit)
  }

  lemma SetHere(c: Check, value: string, bit: string)
    requires ReadsOption(c, OptionOf(value))
    ensures OffersBit(value, bit) <==> SetsBit(c, bit)
  {
    hide OptionOf, Names, ToLower;
    var names := LowerAll(c.bits);
    assert bit in names <==> exists k :: 0 <= k < |names| && names[k] == bit;
    assert forall k :: 0 <= k < |names| ==> names[k] == ToLower(c.bits[k]);
  }

  lemma OfferedIsSet(checks: seq<Check>, raw: string, bit: string)
    requires Reads(checks, raw)
    ensures bit in BitsOf(raw).offers <==> SetsSome(checks, bit)
  {
    var values := Values(ToLower(raw), 0);
    CollectMeaning(values, bit);
    hide Values, OptionOf, Names, ToLower, FlowbitsText.Collect;
    forall i | 0 <= i < |checks| ensures OffersBit(values[i], bit) <==> SetsBit(checks[i], bit) {
      SetHere(checks[i], values[i], bit);
    }
    hide OffersBit, BitsOf;
    assert SetsSome(checks, bit) <==> exists i :: 0 <= i < |checks| && OffersBit(values[i], bit);
  }

  lemma ReadsSetsWithin(checks: seq<Check>, rows: seq<Row>, j: nat)
    requires j < |rows| && Reads(checks, rows[j].raw)
    ensures SetsWithin(checks, Provided(rows))
  {
    hide Reads, ToLower, BitsOf;
    forall i, k | 0 <= i < |checks| && checks[i].op == SET && 0 <= k < |checks[i].bits|
      ensures ToLower(checks[i].bits[k]) in Provided(rows)
    {
      var bit := ToLower(checks[i].bits[k]);
      assert SetsBit(checks[i], bit);
      OfferedIsSet(checks, rows[j].raw, bit);
      assert rows[j] in rows && bit in BitsOf(rows[j].raw).offers;
    }
  }

  lemma {:induction false} UpdateAllWithin(checks: seq<Check>, on: set<string>, provided: set<string>)
    requires SetsWithin(checks, provided) && Within(on, provided)
    ensures Within(UpdateAll(checks, on), provided)
  {
    hide ToLower;
    if checks != [] {
      var next := Update(checks[0], on);
      forall b | b in next ensures ToLower(b) in provided {
        if b !in on {
          var k :| 0 <= k < |checks[0].bits| && checks[0].bits[k] == b;
        }
      }
      UpdateAllWithin(checks[1..], next, provided);
    }
  }

  /** An isset option that no bits among the provided ones satisfy. */
  predicate Unmeetable(c: Check, provided: set<string>) {
    c.op == IS_SET
    && if c.orBits then forall k :: 0 <= k < |c.bits| ==> ToLower(c.bits[k]) !in provided
       else exists k :: 0 <= k < |c.bits| && ToLower(c.bits[k]) !in provided
  }

  predicate Dead(checks: seq<Check>, provided: set<string>) {
    exists i :: 0 <= i < |checks| && Unmeetable(checks[i], provided)
  }

  predicate Conjunctive(checks: seq<Check>) {
    forall i :: 0 <= i < |checks| && checks[i].op == IS_SET ==> !checks[i].orBits
  }

  /** The engine refuses an isset option without names. */
  predicate Validated(checks: seq<Check>) {
    forall i :: 0 <= i < |checks| && checks[i].op == IS_SET ==> checks[i].bits != []
  }

  lemma DeadNeverPasses(checks: seq<Check>, on: set<string>, provided: set<string>)
    requires Dead(checks, provided) && Within(on, provided)
    ensures !PassesTests(checks, on)
  {
    hide ToLower;
    var i :| 0 <= i < |checks| && Unmeetable(checks[i], provided);
    assert !IsSet(checks[i], on);
  }

  /** Dead is exact: otherwise some bits among the provided ones meet every isset option. */
  lemma DeadExactly(checks: seq<Check>, provided: set<string>)
    requires Validated(checks)
    ensures !Dead(checks, provided) <==> exists on: set<string> :: Within(on, provided) && PassesTests(checks, on)
  {
    hide ToLower;
    if !Dead(checks, provided) {
      var on := set i, k | 0 <= i < |checks| && 0 <= k < |checks[i].bits| && ToLower(checks[i].bits[k]) in provided :: checks[i].bits[k];
      forall i | 0 <= i < |checks| && checks[i].op == IS_SET ensures IsSet(checks[i], on) {
        assert !Unmeetable(checks[i], provided);
      }
      assert Within(on, provided) && PassesTests(checks, on);
    } else {
      forall on: set<string> | Within(on, provided) ensures !PassesTests(checks, on) {
        DeadNeverPasses(checks, on, provided);
      }
    }
  }

  lemma NeededIsTested(checks: seq<Check>, raw: string, bit: string)
    requires Reads(checks, raw)
    ensures bit in BitsOf(raw).needs <==> TestsSome(checks, bit)
  {
    var values := Values(ToLower(raw), 0);
    CollectMeaning(values, bit);
    hide Values, OptionOf, Names, ToLower, FlowbitsText.Collect;
    forall i | 0 <= i < |checks| ensures NeedsBit(values[i], bit) <==> TestsBit(checks[i], bit) {
      TestedHere(checks[i], values[i], bit);
    }
    hide NeedsBit, BitsOf;
    assert TestsSome(checks, bit) <==> exists i :: 0 <= i < |checks| && NeedsBit(values[i], bit);
  }

  predicate TestsBit(c: Check, bit: string) {
    c.op == IS_SET && exists k :: 0 <= k < |c.bits| && ToLower(c.bits[k]) == bit
  }

  predicate TestsSome(checks: seq<Check>, bit: string) {
    exists i :: 0 <= i < |checks| && TestsBit(checks[i], bit)
  }

  lemma TestedHere(c: Check, value: string, bit: string)
    requires ReadsOption(c, OptionOf(value))
    ensures NeedsBit(value, bit) <==> TestsBit(c, bit)
  {
    hide OptionOf, Names, ToLower;
    var names := LowerAll(c.bits);
    assert bit in names <==> exists k :: 0 <= k < |names| && names[k] == bit;
    assert forall k :: 0 <= k < |names| ==> names[k] == ToLower(c.bits[k]);
  }

  /** Every rule that can never fire is removed; among rules without alternatives no other is. */
  lemma OrphanVersusDead(checks: seq<Check>, row: Row, provided: set<string>)
    requires Reads(checks, row.raw) && Validated(checks)
    ensures Dead(checks, provided) ==> IsOrphan(row, provided)
    ensures Conjunctive(checks) ==> (IsOrphan(row, provided) <==> Dead(checks, provided))
  {
    hide Reads, BitsOf, ToLower;
    if Dead(checks, provided) {
      var i :| 0 <= i < |checks| && Unmeetable(checks[i], provided);
      var k :| 0 <= k < |checks[i].bits| && ToLower(checks[i].bits[k]) !in provided;
      NeededIsTested(checks, row.raw, ToLower(checks[i].bits[k]));
      assert TestsBit(checks[i], ToLower(checks[i].bits[k]));
    }
    if Conjunctive(checks) && IsOrphan(row, provided) {
      var bit :| bit in BitsOf(row.raw).needs && bit !in provided;
      NeededIsTested(checks, row.raw, bit);
      var i :| 0 <= i < |checks| && TestsBit(checks[i], bit);
      assert Unmeetable(checks[i], provided);
    }
  }

  // ----- removing the orphans -----

  predicate Loaded(rows: seq<Row>, rules: seq<seq<Check>>) {
    |rows| == |rules| && forall i :: 0 <= i < |rows| ==> Reads(rules[i], rows[i].raw) && Validated(rules[i])
  }

  /** The trace of the rules that stay. */
  ghost function Kept(rows: seq<Row>, trace: seq<nat>): (r: seq<nat>)
    requires InRange(trace, |rows|)
    ensures InRange(r, |rows|)
  {
    if trace == [] then []
    else (if IsOrphan(rows[trace[0]], Provided(rows)) then [] else [trace[0]]) + Kept(rows, trace[1..])
  }

  ghost predicate OrphansDead(rows: seq<Row>, rules: seq<seq<Check>>)
    requires |rows| == |rules|
  {
    forall i :: 0 <= i < |rows| && IsOrphan(rows[i], Provided(rows)) ==> Dead(rules[i], Provided(rows))
  }

  lemma StepWithin(rows: seq<Row>, rules: seq<seq<Check>>, j: nat, on: set<string>)
    requires Loaded(rows, rules) && j < |rows| && Within(on, Provided(rows))
    ensures Within(Step(rules[j], on), Provided(rows))
  {
    assert Reads(rules[j], rows[j].raw);
    ReadsSetsWithin(rules[j], rows, j);
    UpdateAllWithin(rules[j], on, Provided(rows));
  }

  /** Over every trace: the bits set stay among the provided ones, no removed rule fires, and
      without the removed rules the same rules fire and the same bits are left. */
  lemma {:induction false} RemovalUnnoticed(rows: seq<Row>, rules: seq<seq<Check>>, trace: seq<nat>, on: set<string>)
    requires Loaded(rows, rules) && OrphansDead(rows, rules)
    requires InRange(trace, |rows|) && Within(on, Provided(rows))
    ensures Within(Final(rules, trace, on), Provided(rows))
    ensures Final(rules, trace, on) == Final(rules, Kept(rows, trace), on)
    ensures Fired(rules, trace, on) == Fired(rules, Kept(rows, trace), on)
    ensures forall k :: 0 <= k < |Fired(rules, trace, on)| ==>
      Fired(rules, trace, on)[k] < |rows| && !IsOrphan(rows[Fired(rules, trace, on)[k]], Provided(rows))
  {
    hide Reads, Provided, IsOrphan, Within, Step, Passes, Dead, Validated;
    if trace != [] {
      var j := trace[0];
      var next := Step(rules[j], on);
      StepWithin(rows, rules, j, on);
      RemovalUnnoticed(rows, rules, trace[1..], next);
      if IsOrphan(rows[j], Provided(rows)) {
        OrphanIdle(rules[j], on, Provided(rows));
        assert Kept(rows, trace) == Kept(rows, trace[1..]);
        assert Fired(rules, trace, on) == Fired(rules, trace[1..], on);
      } else {
        var kept := Kept(rows, trace);
        assert kept == [j] + Kept(rows, trace[1..]) && kept[1..] == Kept(rows, trace[1..]);
      }
    }
  }

  lemma OrphanIdle(checks: seq<Check>, on: set<string>, provided: set<string>)
    requires Dead(checks, provided) && Within(on, provided)
    ensures !Passes(checks, on) && Step(checks, on) == on
  {
    DeadNeverPasses(checks, on, provided);
  }

  /** The promise of the strategy: for rules without alternatives, from a flow without bits. */
  lemma ConjunctiveRemoval(rows: seq<Row>, rules: seq<seq<Check>>, trace: seq<nat>)
    requires Loaded(rows, rules) && InRange(trace, |rows|)
    requires forall i :: 0 <= i < |rows| ==> Conjunctive(rules[i])
    ensures Fired(rules, trace, {}) == Fired(rules, Kept(rows, trace), {})
    ensures Final(rules, trace, {}) == Final(rules, Kept(rows, trace), {})
    ensures Within(Final(rules, trace, {}), Provided(rows))
  {
    hide Reads, Provided, IsOrphan, Conjunctive, Validated, Dead, Fired, Final, Kept;
    forall i | 0 <= i < |rows| && IsOrphan(rows[i], Provided(rows)) ensures Dead(rules[i], Provided(rows)) {
      OrphanVersusDead(rules[i], rows[i], Provided(rows));
    }
    RemovalUnnoticed(rows, rules, trace, {});
  }

  /** The condition is exact for rules without isnotset options: an orphan that is not dead fires
      in some state among the provided bits, and its removal is then noticed. */
  lemma LiveOrphanIsNoticed(rows: seq<Row>, rules: seq<seq<Check>>, j: nat)
    requires Loaded(rows, rules) && j < |rows| && IsOrphan(rows[j], Provided(rows))
    requires forall i :: 0 <= i < |rules[j]| ==> rules[j][i].op != IS_NOT_SET
    ensures !Dead(rules[j], Provided(rows))
       <==> exists on: set<string> :: Within(on, Provided(rows)) && Fired(rules, [j], on) != Fired(rules, Kept(rows, [j]), on)
  {
    hide Provided, IsOrphan, Dead, Step, Within, PassesTests;
    assert Validated(rules[j]);
    DeadExactly(rules[j], Provided(rows));
    assert Kept(rows, [j]) == [] by { assert [j][1..] == []; }
    forall on: set<string> ensures Fired(rules, [j], on) != [] <==> PassesTests(rules[j], on) {
      assert [j][1..] == [];
      assert Passes(rules[j], on) <==> PassesTests(rules[j], on);
    }
  }
}
