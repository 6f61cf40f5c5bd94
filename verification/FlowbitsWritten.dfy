/** Rules as they are written: on plain names the engine and the strategy read the same options, so
    the promise of the strategy holds of the texts themselves. */
module FlowbitsWritten {
  import opened Keys
  import opened Evaluation
  import opened FlowbitsText
  import opened Flowbits

  /** A flowbits option with the other text of the rule in front of it. */
  datatype Written = Written(gap: string, op: Op, args: string)

  datatype RuleText = RuleText(options: seq<Written>, tail: string)

  function ValueOf(o: Written): string {
    if o.op == NO_ALERT then OpName(o.op) else OpName(o.op) + "," + o.args
  }

  function Pieces(options: seq<Written>): seq<Piece> {
    if options == [] then [] else [Piece(options[0].gap, ValueOf(options[0]))] + Pieces(options[1..])
  }

  /** The rule's text. */
  function TextOf(r: RuleText): string {
    Render(Pieces(r.options), r.tail)
  }

  /** The engine's option. */
  function CheckOf(o: Written): Check {
    if o.op == NO_ALERT then Check(NO_ALERT, false, []) else Check(o.op, '|' in o.args, EngineNames(o.args))
  }

  function ChecksOf(options: seq<Written>): (r: seq<Check>)
    ensures |r| == |options|
  {
    seq(|options|, i requires 0 <= i < |options| => CheckOf(options[i]))
  }

  /** What the engine demands of an option when it loads the rule. */
  predicate Accepted(c: Check) {
    match c.op
    case SET | UNSET => !c.orBits && c.bits != []
    case IS_SET | IS_NOT_SET => c.bits != []
    case NO_ALERT => c.bits == []
  }

  /** Plain names, and no tag in the text in front of the option. */
  ghost predicate CleanOption(o: Written) {
    && Find(ToLower(o.gap) + TAG, TAG, 0) == |o.gap|
    && (o.op != NO_ALERT ==> Plain(o.args) && ';' !in o.args)
  }

  ghost predicate CleanRule(r: RuleText) {
    && (forall o :: o in r.options ==> CleanOption(o) && Accepted(CheckOf(o)))
    && Find(ToLower(r.tail), TAG, 0) == -1
  }

  // ----- one option -----

  lemma LowerAppended(a: string, b: string)
    ensures ToLower(a + b) == ToLower(a) + ToLower(b)
  {
  }

  lemma LowerNames()
    ensures ToLower(TAG) == TAG && ToLower(";") == ";" && ToLower(",") == ","
    ensures forall op :: ToLower(OpName(op)) == OpName(op)
  {
    forall op ensures ToLower(OpName(op)) == OpName(op) {
      var s := OpName(op);
      assert forall i :: 0 <= i < |s| ==> Lower(s[i]) == s[i];
    }
  }

  lemma OpText(op: Op)
    ensures ',' !in OpName(op) && ';' !in OpName(op) && TrimSpace(OpName(op)) == OpName(op)
  {
    TrimSame(OpName(op));
  }

  lemma SplitAtComma(op: string, args: string)
    requires ',' !in op
    ensures Find(op + "," + args, ",", 0) == |op|
    ensures (op + "," + args)[..|op|] == op && (op + "," + args)[|op| + 1..] == args
  {
    var value := op + "," + args;
    forall i: nat | i < |op| ensures !OccursAt(value, ",", i) {
      assert value[i..i + 1][0] == op[i];
    }
    assert value[|op|..|op| + 1] == ",";
    hide Find;
    FindIs(value, ",", 0, |op|);
  }

  lemma NoComma(s: string)
    requires ',' !in s
    ensures Find(s, ",", 0) < 0
  {
    forall i: nat ensures !OccursAt(s, ",", i) {
      if i < |s| {
        assert s[i..i + 1][0] == s[i];
      }
    }
    hide Find;
    FindFirst(s, ",", 0);
  }

  /** The strategy reads an option's operation and, lower-cased, its names. */
  lemma OptionRead(o: Written)
    ensures OptionOf(ToLower(ValueOf(o))) == Flowbit(OpName(o.op), if o.op == NO_ALERT then "" else ToLower(o.args))
  {
    LowerNames();
    OpText(o.op);
    hide OpName, ToLower, TrimSpace, Find;
    if o.op == NO_ALERT {
      NoComma(OpName(o.op));
    } else {
      LowerAppended(OpName(o.op) + ",", o.args);
      LowerAppended(OpName(o.op), ",");
      SplitAtComma(OpName(o.op), ToLower(o.args));
    }
  }

  lemma ReadsWritten(o: Written)
    requires CleanOption(o)
    ensures ReadsOption(CheckOf(o), OptionOf(ToLower(ValueOf(o))))
  {
    OptionRead(o);
    hide OptionOf, Names, EngineNames, Plain, Find;
    if o.op != NO_ALERT {
      NamesAgree(o.args);
    }
  }

  lemma LowerFree(s: string)
    requires ';' !in s
    ensures ';' !in ToLower(s)
  {
    var low := ToLower(s);
    forall i | 0 <= i < |low| ensures low[i] != ';' {
      assert s[i] in s && low[i] == Lower(s[i]);
    }
  }

  lemma ValueFree(o: Written)
    requires CleanOption(o)
    ensures ';' !in ToLower(ValueOf(o))
  {
    OpText(o.op);
    hide OpName, ToLower, Find, Plain, TrimSpace;
    LowerFree(ValueOf(o));
  }

  // ----- one rule -----

  function LowerPieces(options: seq<Written>): seq<Piece> {
    if options == [] then []
    else [Piece(ToLower(options[0].gap), ToLower(ValueOf(options[0])))] + LowerPieces(options[1..])
  }

  lemma {:induction false} RenderLower(options: seq<Written>, tail: string)
    ensures ToLower(Render(Pieces(options), tail)) == Render(LowerPieces(options), ToLower(tail))
  {
    hide ToLower, ValueOf;
    if options != [] {
      var o, ps, low := options[0], Pieces(options), LowerPieces(options);
      RenderLower(options[1..], tail);
      assert ps[1..] == Pieces(options[1..]) && low[1..] == LowerPieces(options[1..]);
      LowerPiece(o.gap, ValueOf(o), Render(Pieces(options[1..]), tail));
    }
  }

  lemma LowerPiece(gap: string, value: string, rest: string)
    ensures ToLower(gap + TAG + value + ";" + rest) == ToLower(gap) + TAG + ToLower(value) + ";" + ToLower(rest)
  {
    LowerNames();
    hide ToLower;
    LowerAppended(gap + TAG + value + ";", rest);
    LowerAppended(gap + TAG + value, ";");
    LowerAppended(gap + TAG, value);
    LowerAppended(gap, TAG);
  }

  lemma {:induction false} LowerPiecesAre(options: seq<Written>)
    requires forall o :: o in options ==> CleanOption(o)
    ensures forall p :: p in LowerPieces(options) ==> CleanPiece(p)
    ensures |ValuesOf(LowerPieces(options))| == |options|
    ensures forall i :: 0 <= i < |options| ==> ValuesOf(LowerPieces(options))[i] == ToLower(ValueOf(options[i]))
  {
    hide ValueOf, Find, Plain;
    if options != [] {
      var o, low := options[0], LowerPieces(options);
      assert o in options && forall x :: x in options[1..] ==> x in options;
      LowerPiecesAre(options[1..]);
      ValueFree(o);
      hide ToLower;
      assert low[1..] == LowerPieces(options[1..]);
      assert ValuesOf(low) == [ToLower(ValueOf(o))] + ValuesOf(low[1..]);
      assert forall i :: 0 < i < |options| ==> options[i] == options[1..][i - 1];
    }
  }

  /** The engine's options of a clean rule are those the strategy finds in its text. */
  lemma WrittenReads(r: RuleText)
    requires CleanRule(r)
    ensures Reads(ChecksOf(r.options), TextOf(r)) && Validated(ChecksOf(r.options))
  {
    hide Find, CleanOption, Values, ToLower, OptionOf, Names, CheckOf;
    var checks, pieces := ChecksOf(r.options), LowerPieces(r.options);
    forall i | 0 <= i < |r.options| ensures checks[i] == CheckOf(r.options[i]) && Accepted(checks[i]) {
      assert r.options[i] in r.options;
    }
    RenderLower(r.options, r.tail);
    LowerPiecesAre(r.options);
    ScanRendered(pieces, ToLower(r.tail));
    forall i | 0 <= i < |r.options| ensures ReadsOption(checks[i], OptionOf(ValuesOf(pieces)[i])) {
      assert r.options[i] in r.options;
      ReadsWritten(r.options[i]);
    }
  }

  // ----- the promise of the strategy, for written rules -----

  function AllChecks(rs: seq<RuleText>): (r: seq<seq<Check>>)
    ensures |r| == |rs|
  {
    seq(|rs|, i requires 0 <= i < |rs| => ChecksOf(rs[i].options))
  }

  ghost predicate WrittenRows(rows: seq<Row>, rs: seq<RuleText>) {
    |rows| == |rs| && forall i :: 0 <= i < |rows| ==> CleanRule(rs[i]) && rows[i].raw == TextOf(rs[i])
  }

  lemma WrittenLoaded(rows: seq<Row>, rs: seq<RuleText>)
    requires WrittenRows(rows, rs)
    ensures Loaded(rows, AllChecks(rs))
  {
    hide CleanRule, Reads, Validated, TextOf, ChecksOf;
    forall i | 0 <= i < |rows| ensures Reads(AllChecks(rs)[i], rows[i].raw) && Validated(AllChecks(rs)[i]) {
      WrittenReads(rs[i]);
    }
  }

  /** No isset option offers alternatives. */
  predicate NoAlternatives(rs: seq<RuleText>) {
    forall i, k :: 0 <= i < |rs| && 0 <= k < |rs[i].options| && rs[i].options[k].op == IS_SET ==> '|' !in rs[i].options[k].args
  }

  lemma WrittenConjunctive(rs: seq<RuleText>, i: nat)
    requires NoAlternatives(rs) && i < |rs|
    ensures Conjunctive(AllChecks(rs)[i])
  {
    hide EngineNames;
  }

  /** Removing the orphans among rules that write no alternatives goes unnoticed, over every trace
      of a flow that starts without bits. */
  lemma WrittenRemoval(rows: seq<Row>, rs: seq<RuleText>, trace: seq<nat>)
    requires WrittenRows(rows, rs) && NoAlternatives(rs) && InRange(trace, |rows|)
    ensures
      var rules := AllChecks(rs);
      && Fired(rules, trace, {}) == Fired(rules, Kept(rows, trace), {})
      && Final(rules, trace, {}) == Final(rules, Kept(rows, trace), {})
      && Within(Final(rules, trace, {}), Provided(rows))
  {
    WrittenLoaded(rows, rs);
    hide NoAlternatives, Loaded, Conjunctive, Fired, Final, Kept, Provided, Within, CleanRule, TextOf;
    forall i | 0 <= i < |rows| ensures Conjunctive(AllChecks(rs)[i]) {
      WrittenConjunctive(rs, i);
    }
    ConjunctiveRemoval(rows, AllChecks(rs), trace);
  }

  // ----- a rule with alternatives -----

  const SET_A := RuleText([Written("", SET, "a")], "")
  const ISSET_A_OR_B := RuleText([Written("", IS_SET, "a|b")], "")

  function RowOf(r: RuleText): Row {
    Row(RuleId(1, 1), 1, "", "", TextOf(r))
  }

  lemma SmallBit(c: char)
    requires 'a' <= c <= 'z'
    ensures ToLower([c]) == [c] && Lower(c) == c && !IsSpace(c) && !IsSeparator(c)
  {
  }

  lemma NoGap()
    ensures ToLower("") == "" && Find("" + TAG, TAG, 0) == 0 && Find("", TAG, 0) == -1
  {
    assert "" + TAG == TAG && TAG[0..|TAG|] == TAG;
  }

  lemma SetterClean()
    ensures CleanRule(SET_A) && ChecksOf(SET_A.options) == [Check(SET, false, ["a"])]
  {
    NoGap();
    SmallBit('a');
    hide Find, ToLower, IsSpace;
  }

  lemma TesterClean()
    ensures CleanRule(ISSET_A_OR_B) && ChecksOf(ISSET_A_OR_B.options) == [Check(IS_SET, true, ["a", "b"])]
  {
    NoGap();
    TesterPlain();
    TesterNames();
    hide Find, ToLower, Fields, EngineNames, Plain;
  }

  lemma TesterPlain()
    ensures Plain("a|b") && ';' !in "a|b"
  {
    SmallBit('a');
    SmallBit('b');
    assert !IsSpace('|');
    hide IsSpace;
  }

  lemma TesterNames()
    ensures EngineNames("a|b") == ["a", "b"]
  {
    var sep := c => c == '|' || CSpace(c);
    var words := ["a", "b"];
    assert Join(words, "|") == "a|b" by { assert words[1..] == ["b"]; }
    hide Fields, Join;
    FieldsOfJoined(words, '|', sep);
  }

  lemma SetterBits(bit: string)
    ensures bit in BitsOf(TextOf(SET_A)).offers <==> bit == "a"
    ensures bit !in BitsOf(TextOf(SET_A)).needs
  {
    SetterClean();
    SmallBit('a');
    WrittenReads(SET_A);
    hide Reads, BitsOf, ToLower, TextOf, CleanRule;
    var checks := ChecksOf(SET_A.options);
    OfferedIsSet(checks, TextOf(SET_A), bit);
    NeededIsTested(checks, TextOf(SET_A), bit);
    assert checks[0].bits[0] == "a";
    assert SetsSome(checks, bit) <==> SetsBit(checks[0], bit);
  }

  lemma TesterBits(bit: string)
    ensures bit !in BitsOf(TextOf(ISSET_A_OR_B)).offers
    ensures "b" in BitsOf(TextOf(ISSET_A_OR_B)).needs
  {
    TesterClean();
    SmallBit('b');
    WrittenReads(ISSET_A_OR_B);
    hide Reads, BitsOf, ToLower, TextOf, CleanRule;
    var checks := ChecksOf(ISSET_A_OR_B.options);
    OfferedIsSet(checks, TextOf(ISSET_A_OR_B), bit);
    NeededIsTested(checks, TextOf(ISSET_A_OR_B), "b");
    assert ToLower(checks[0].bits[1]) == "b";
    assert TestsBit(checks[0], "b");
  }

  lemma ExampleOrphans(rows: seq<Row>)
    requires rows == [RowOf(SET_A), RowOf(ISSET_A_OR_B)]
    ensures !IsOrphan(rows[0], Provided(rows)) && IsOrphan(rows[1], Provided(rows))
  {
    hide BitsOf, TextOf;
    var provided := Provided(rows);
    forall bit ensures bit in provided <==> bit == "a" {
      SetterBits(bit);
      TesterBits(bit);
      assert rows[0] in rows;
    }
    forall bit ensures bit !in BitsOf(rows[0].raw).needs {
      SetterBits(bit);
    }
    TesterBits("b");
  }

  lemma ExampleRun()
    ensures
      var rules := [[Check(SET, false, ["a"])], [Check(IS_SET, true, ["a", "b"])]];
      Fired(rules, [0, 1], {}) == [0, 1] && Fired(rules, [0], {}) == [0]
  {
    var rules := [[Check(SET, false, ["a"])], [Check(IS_SET, true, ["a", "b"])]];
    var on := {"a"};
    assert Step(rules[0], {}) == on by {
      assert rules[0][1..] == [];
      assert (set b | b in ["a"]) == {"a"};
    }
    assert rules[1][0].bits[0] in on;
    assert [0, 1][1..] == [1] && [1][1..] == [] && [0][1..] == [];
    assert Fired(rules, [1], on) == [1];
  }

  /** A rule that needs one of two bits is removed when one of them has no provider, although the
      other lets it fire. */
  lemma AlternativeIsLost()
    ensures
      var rs := [SET_A, ISSET_A_OR_B];
      var rows, rules := [RowOf(SET_A), RowOf(ISSET_A_OR_B)], AllChecks(rs);
      && WrittenRows(rows, rs) && IsOrphan(rows[1], Provided(rows))
      && Fired(rules, [0, 1], {}) == [0, 1] && Fired(rules, Kept(rows, [0, 1]), {}) == [0]
  {
    hide Fired, Kept, Provided, IsOrphan, WrittenRows, AllChecks, RowOf;
    ExampleWritten();
    ExampleKept();
    ExampleRun();
  }

  lemma ExampleWritten()
    ensures
      var rs, rows := [SET_A, ISSET_A_OR_B], [RowOf(SET_A), RowOf(ISSET_A_OR_B)];
      && WrittenRows(rows, rs)
      && AllChecks(rs) == [[Check(SET, false, ["a"])], [Check(IS_SET, true, ["a", "b"])]]
  {
    SetterClean();
    TesterClean();
    hide TextOf, CleanRule, ChecksOf;
    var rs := [SET_A, ISSET_A_OR_B];
    assert AllChecks(rs)[0] == ChecksOf(SET_A.options) && AllChecks(rs)[1] == ChecksOf(ISSET_A_OR_B.options);
  }

  lemma ExampleKept()
    ensures
      var rows := [RowOf(SET_A), RowOf(ISSET_A_OR_B)];
      IsOrphan(rows[1], Provided(rows)) && Kept(rows, [0, 1]) == [0]
  {
    hide Provided, IsOrphan, RowOf;
    var rows := [RowOf(SET_A), RowOf(ISSET_A_OR_B)];
    ExampleOrphans(rows);
    assert [0, 1][1..] == [1] && [1][1..] == [];
    assert Kept(rows, [1]) == [];
  }
}
