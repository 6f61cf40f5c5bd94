/** Reading the flowbits options out of a rule's text. */
module FlowbitsText {
  import opened Keys

  // ----- finding, splitting and joining text -----

  predicate OccursAt(s: string, pat: string, i: nat) {
    i + |pat| <= |s| && s[i..i + |pat|] == pat
  }

  /** The first occurrence at or after `from`, -1 if there is none. */
  function Find(s: string, pat: string, from: nat): (r: int)
    ensures r == -1 || from <= r <= r + |pat| <= |s|
    decreases |s| - from
  {
    if from + |pat| > |s| then -1
    else if OccursAt(s, pat, from) then from
    else if from == |s| then -1
    else Find(s, pat, from + 1)
  }

  lemma {:induction false} FindFirst(s: string, pat: string, from: nat)
    ensures var r := Find(s, pat, from); r >= 0 ==> OccursAt(s, pat, r)
    ensures var r := Find(s, pat, from); forall i: nat :: from <= i && (r == -1 || i < r) ==> !OccursAt(s, pat, i)
    decreases |s| - from
  {
    if from < |s| && !OccursAt(s, pat, from) {
      FindFirst(s, pat, from + 1);
    }
  }

  lemma FindIs(s: string, pat: string, from: nat, p: nat)
    requires from <= p && OccursAt(s, pat, p)
    requires forall i: nat :: from <= i < p ==> !OccursAt(s, pat, i)
    ensures Find(s, pat, from) == p
  {
    FindFirst(s, pat, from);
  }

  lemma FindShift(a: string, b: string, pat: string, o: nat)
    ensures Find(a + b, pat, |a| + o) == if Find(b, pat, o) < 0 then -1 else |a| + Find(b, pat, o)
  {
    hide Find, OccursAt;
    OccursShift(a, b, pat);
    FindFirst(a + b, pat, |a| + o);
    FindFirst(b, pat, o);
    var p, q := Find(a + b, pat, |a| + o), Find(b, pat, o);
    if p >= 0 {
      assert OccursAt(b, pat, p - |a|);
    }
    if q >= 0 {
      assert OccursAt(a + b, pat, |a| + q);
    }
  }

  lemma OccursShift(a: string, b: string, pat: string)
    ensures forall i: nat :: OccursAt(a + b, pat, |a| + i) == OccursAt(b, pat, i)
  {
    forall i: nat ensures OccursAt(a + b, pat, |a| + i) == OccursAt(b, pat, i) {
      if i + |pat| <= |b| {
        assert (a + b)[|a| + i..|a| + i + |pat|] == b[i..i + |pat|];
      }
    }
  }

  /** The parts of a text between its commas. */
  function Split(s: string): (r: seq<string>)
    ensures r != []
    decreases |s|
  {
    var c := Find(s, ",", 0);
    if c < 0 then [s] else [s[..c]] + Split(s[c + 1..])
  }

  function Join(parts: seq<string>, sep: string): string {
    if parts == [] then "" else if |parts| == 1 then parts[0] else parts[0] + sep + Join(parts[1..], sep)
  }

  lemma {:induction false} JoinSplit(s: string)
    ensures Join(Split(s), ",") == s
    decreases |s|
  {
    var c := Find(s, ",", 0);
    if c >= 0 {
      JoinSplit(s[c + 1..]);
      assert Split(s)[1..] == Split(s[c + 1..]);
      FindFirst(s, ",", 0);
      assert s == s[..c] + s[c..c + 1] + s[c + 1..];
    }
  }

  // ----- fields -----

  function WordLen(s: string, sep: char -> bool): (n: nat)
    ensures n <= |s|
  {
    if s == "" || sep(s[0]) then 0 else 1 + WordLen(s[1..], sep)
  }

  /** The maximal runs of characters that are not separators. */
  function Fields(s: string, sep: char -> bool): seq<string>
    decreases |s|
  {
    if s == "" then []
    else if sep(s[0]) then Fields(s[1..], sep)
    else var n := WordLen(s, sep); [s[..n]] + Fields(s[n..], sep)
  }

  predicate Word(w: string, sep: char -> bool) {
    w != "" && forall c :: c in w ==> !sep(c)
  }

  lemma {:induction false} WordLenWord(w: string, rest: string, sep: char -> bool)
    requires forall c :: c in w ==> !sep(c)
    requires rest == "" || sep(rest[0])
    ensures WordLen(w + rest, sep) == |w|
  {
    if w == "" {
      assert w + rest == rest;
    } else {
      assert (w + rest)[1..] == w[1..] + rest;
      WordLenWord(w[1..], rest, sep);
    }
  }

  lemma FieldsOfWord(w: string, sep: char -> bool)
    requires Word(w, sep)
    ensures Fields(w, sep) == [w]
  {
    WordLenWord(w, "", sep);
    assert w + "" == w && w[..|w|] == w && w[|w|..] == "";
  }

  lemma FirstField(w: string, glue: char, rest: string, sep: char -> bool)
    requires sep(glue) && Word(w, sep)
    ensures Fields(w + [glue] + rest, sep) == [w] + Fields(rest, sep)
  {
    var s := w + [glue] + rest;
    WordLenWord(w, [glue] + rest, sep);
    assert s == w + ([glue] + rest) && s[..|w|] == w && s[|w|..] == [glue] + rest;
    assert ([glue] + rest)[1..] == rest;
  }

  /** Joining words with a separator and taking the fields gives the words back. */
  lemma {:induction false} FieldsOfJoined(words: seq<string>, glue: char, sep: char -> bool)
    requires sep(glue) && forall i :: 0 <= i < |words| ==> Word(words[i], sep)
    ensures Fields(Join(words, [glue]), sep) == words
  {
    if words == [] {
    } else if |words| == 1 {
      FieldsOfWord(words[0], sep);
    } else {
      FieldsOfJoined(words[1..], glue, sep);
      FirstField(words[0], glue, Join(words[1..], [glue]), sep);
      assert Join(words, [glue]) == words[0] + [glue] + Join(words[1..], [glue]);
    }
  }

  function LowerAll(words: seq<string>): (r: seq<string>)
    ensures |r| == |words|
  {
    seq(|words|, i requires 0 <= i < |words| => ToLower(words[i]))
  }

  /** Two readings of a text agree up to letter case when they separate at the same characters. */
  lemma {:induction false} FieldsLower(s: string, fine: char -> bool, coarse: char -> bool)
    requires forall c :: c in s ==> (fine(c) <==> coarse(Lower(c)))
    ensures Fields(ToLower(s), coarse) == LowerAll(Fields(s, fine))
    decreases |s|
  {
    WordLenLower(s, fine, coarse);
    if s != "" {
      LowerParts(s, 1);
      if fine(s[0]) {
        FieldsLower(s[1..], fine, coarse);
      } else {
        var n := WordLen(s, fine);
        LowerParts(s, n);
        FieldsLower(s[n..], fine, coarse);
        hide Fields, WordLen, ToLower;
        FieldsStep(s, fine);
        FieldsStep(ToLower(s), coarse);
        assert LowerAll([s[..n]] + Fields(s[n..], fine)) == [ToLower(s[..n])] + LowerAll(Fields(s[n..], fine));
      }
    }
  }

  lemma FieldsStep(s: string, sep: char -> bool)
    requires s != "" && !sep(s[0])
    ensures var n := WordLen(s, sep); Fields(s, sep) == [s[..n]] + Fields(s[n..], sep)
  {
  }

  lemma LowerParts(s: string, n: nat)
    requires n <= |s|
    ensures ToLower(s)[..n] == ToLower(s[..n]) && ToLower(s)[n..] == ToLower(s[n..])
    ensures s != "" ==> ToLower(s)[0] == Lower(s[0])
  {
  }

  lemma {:induction false} WordLenLower(s: string, fine: char -> bool, coarse: char -> bool)
    requires forall c :: c in s ==> (fine(c) <==> coarse(Lower(c)))
    ensures WordLen(ToLower(s), coarse) == WordLen(s, fine)
  {
    if s != "" {
      LowerParts(s, 1);
      WordLenLower(s[1..], fine, coarse);
    }
  }

  // ----- the options of a rule -----

  const TAG: string := "flowbits:"

  /** The option values found by scanning a lower-cased rule from `offset`. */
  function Values(lower: string, offset: nat): seq<string>
    decreases |lower| - offset
  {
    if offset >= |lower| then [] else
    var pos := Find(lower, TAG, offset);
    if pos < 0 then [] else
    var start := pos + |TAG|;
    var end := Find(lower, ";", start);
    if end < 0 then [] else [lower[start..end]] + Values(lower, end + 1)
  }

  lemma ValuesStep(lower: string, offset: nat, pos: nat, end: nat)
    requires offset < |lower| && Find(lower, TAG, offset) == pos && Find(lower, ";", pos + |TAG|) == end
    ensures Values(lower, offset) == [lower[pos + |TAG|..end]] + Values(lower, end + 1)
  {
    hide Find;
  }

  lemma ValuesEnd(lower: string, offset: nat)
    requires offset >= |lower| || Find(lower, TAG, offset) < 0
          || Find(lower, ";", Find(lower, TAG, offset) + |TAG|) < 0
    ensures Values(lower, offset) == []
  {
    hide Find;
  }

  lemma {:induction false} ValuesShift(a: string, b: string, o: nat)
    ensures Values(a + b, |a| + o) == Values(b, o)
    decreases |b| - o
  {
    hide Find, Values;
    FindShift(a, b, TAG, o);
    var pos := Find(b, TAG, o);
    if o >= |b| || pos < 0 {
      ValuesEnd(b, o);
      ValuesEnd(a + b, |a| + o);
    } else {
      var start := pos + |TAG|;
      FindShift(a, b, ";", start);
      var end := Find(b, ";", start);
      if end < 0 {
        ValuesEnd(b, o);
        ValuesEnd(a + b, |a| + o);
      } else {
        ValuesShift(a, b, end + 1);
        ValuesStep(b, o, pos, end);
        ValuesStep(a + b, |a| + o, |a| + pos, |a| + end);
        assert (a + b)[|a| + start..|a| + end] == b[start..end];
      }
    }
  }

  /** An option with the other text of the rule in front of it. */
  datatype Piece = Piece(gap: string, value: string)

  function Render(ps: seq<Piece>, tail: string): string {
    if ps == [] then tail else ps[0].gap + TAG + ps[0].value + ";" + Render(ps[1..], tail)
  }

  ghost predicate CleanPiece(p: Piece) {
    Find(p.gap + TAG, TAG, 0) == |p.gap| && ';' !in p.value
  }

  function ValuesOf(ps: seq<Piece>): seq<string> {
    if ps == [] then [] else [ps[0].value] + ValuesOf(ps[1..])
  }

  lemma FirstPiece(p: Piece, rest: string)
    requires CleanPiece(p)
    ensures Values(p.gap + TAG + p.value + ";" + rest, 0) == [p.value] + Values(rest, 0)
  {
    hide Values, Find;
    var front := p.gap + TAG;
    var back := p.value + ";" + rest;
    var text := front + p.value + ";" + rest;
    FindTag(p.gap, back);
    FindSemicolon(front, p.value, rest);
    assert text == front + back;
    ValuesStep(text, 0, |p.gap|, |front| + |p.value|);
    assert text[|front|..|front| + |p.value|] == p.value;
    ValuesShift(front + p.value + ";", rest, 0);
  }

  lemma FindTag(gap: string, rest: string)
    requires Find(gap + TAG, TAG, 0) == |gap|
    ensures Find(gap + TAG + rest, TAG, 0) == |gap|
  {
    var text := gap + TAG + rest;
    FindFirst(gap + TAG, TAG, 0);
    assert text[|gap|..|gap| + |TAG|] == TAG;
    forall i: nat | i < |gap| ensures !OccursAt(text, TAG, i) {
      assert (gap + TAG)[i..i + |TAG|] == text[i..i + |TAG|];
      assert !OccursAt(gap + TAG, TAG, i);
    }
    hide Find;
    FindIs(text, TAG, 0, |gap|);
  }

  lemma FindSemicolon(head: string, value: string, rest: string)
    requires ';' !in value
    ensures Find(head + value + ";" + rest, ";", |head|) == |head| + |value|
  {
    var text := head + value + ";" + rest;
    var end := |head| + |value|;
    forall i: nat | |head| <= i < end ensures !OccursAt(text, ";", i) {
      assert text[i] == value[i - |head|];
      assert text[i..i + 1][0] == text[i];
    }
    assert text[end..end + 1] == ";";
    hide Find;
    FindIs(text, ";", |head|, end);
  }

  /** The scan finds exactly the options of a rule, whatever text stands between them. */
  lemma {:induction false} ScanRendered(ps: seq<Piece>, tail: string)
    requires forall p :: p in ps ==> CleanPiece(p)
    requires Find(tail, TAG, 0) == -1
    ensures Values(Render(ps, tail), 0) == ValuesOf(ps)
  {
    if ps != [] {
      FirstPiece(ps[0], Render(ps[1..], tail));
      ScanRendered(ps[1..], tail);
    }
  }

  datatype Flowbit = Flowbit(op: string, args: string)

  /** The operation before the first comma, and everything behind that comma. */
  function OptionOf(value: string): Flowbit {
    var c := Find(value, ",", 0);
    if c < 0 then Flowbit(TrimSpace(value), "") else Flowbit(TrimSpace(value[..c]), value[c + 1..])
  }

  lemma OptionParts(value: string)
    ensures
      var parts := Split(value);
      OptionOf(value) == Flowbit(TrimSpace(parts[0]), if |parts| > 1 then Join(parts[1..], ",") else "")
  {
    var c := Find(value, ",", 0);
    if c >= 0 {
      JoinSplit(value[c + 1..]);
      assert Split(value)[1..] == Split(value[c + 1..]);
    }
  }

  // ----- names -----

  predicate IsSeparator(c: char) {
    c == ',' || c == '&' || c == '|' || c == '!' || c == '(' || c == ')'
    || c == ' ' || c == '\t' || c == '\n' || c == '\r'
  }

  /** The trimmed words that are not empty. */
  function Trimmed(words: seq<string>): seq<string> {
    if words == [] then []
    else
      var bit := TrimSpace(words[|words| - 1]);
      Trimmed(words[..|words| - 1]) + if bit != "" then [bit] else []
  }

  function Names(args: string): seq<string> {
    Trimmed(Fields(args, IsSeparator))
  }

  method FlowbitNames(value: string) returns (out: seq<string>)
    ensures out == Names(value)
  {
    var fields := Fields(value, IsSeparator);
    out := [];
    for i := 0 to |fields|
      invariant out == Trimmed(fields[..i])
    {
      var bit := TrimSpace(fields[i]);
      assert fields[..i + 1][..i] == fields[..i];
      if bit != "" {
        out := out + [bit];
      }
    }
    assert fields[..|fields|] == fields;
  }

  lemma TrimSame(w: string)
    requires w != "" ==> !IsSpace(w[0]) && !IsSpace(w[|w| - 1])
    ensures TrimSpace(w) == w
  {
  }

  lemma {:induction false} TrimmedSame(words: seq<string>)
    requires forall i :: 0 <= i < |words| ==> Word(words[i], IsSpace)
    ensures Trimmed(words) == words
  {
    if words != [] {
      var n := |words| - 1;
      TrimmedSame(words[..n]);
      assert words[n][0] in words[n] && words[n][|words[n]| - 1] in words[n];
      TrimSame(words[n]);
      assert words == words[..n] + [words[n]];
    }
  }

  function AddUnique(values: seq<string>, value: string): seq<string> {
    if value in values then values else values + [value]
  }

  method AppendUniqueString(values: seq<string>, value: string) returns (out: seq<string>)
    ensures out == AddUnique(values, value)
  {
    for i := 0 to |values|
      invariant value !in values[..i]
    {
      if values[i] == value { return values; }
    }
    assert values[..|values|] == values;
    return values + [value];
  }

  function AddAll(values: seq<string>, more: seq<string>): seq<string> {
    if more == [] then values else AddUnique(AddAll(values, more[..|more| - 1]), more[|more| - 1])
  }

  method AppendAll(values: seq<string>, more: seq<string>) returns (out: seq<string>)
    ensures out == AddAll(values, more)
  {
    out := values;
    for i := 0 to |more|
      invariant out == AddAll(values, more[..i])
    {
      assert more[..i + 1][..i] == more[..i];
      out := AppendUniqueString(out, more[i]);
    }
    assert more[..|more|] == more;
  }

  ghost predicate NoRepeats(s: seq<string>) {
    forall i, j :: 0 <= i < j < |s| ==> s[i] != s[j]
  }

  lemma {:induction false} AddAllMeaning(values: seq<string>, more: seq<string>, bit: string)
    ensures bit in AddAll(values, more) <==> bit in values || bit in more
    ensures NoRepeats(values) ==> NoRepeats(AddAll(values, more))
  {
    if more != [] {
      var n := |more| - 1;
      AddAllMeaning(values, more[..n], bit);
      assert more == more[..n] + [more[n]];
    }
  }

  // ----- what a rule sets and needs -----

  datatype Bits = Bits(offers: seq<string>, needs: seq<string>)

  predicate Sets(o: Flowbit) {
    o.op == "set" || o.op == "toggle"
  }

  predicate Tests(o: Flowbit) {
    o.op == "isset"
  }

  function Absorb(b: Bits, o: Flowbit): Bits {
    if Sets(o) then b.(offers := AddAll(b.offers, Names(o.args)))
    else if Tests(o) then b.(needs := AddAll(b.needs, Names(o.args)))
    else b
  }

  function Collect(values: seq<string>): Bits {
    if values == [] then Bits([], [])
    else Absorb(Collect(values[..|values| - 1]), OptionOf(values[|values| - 1]))
  }

  function BitsOf(raw: string): Bits {
    Collect(Values(ToLower(raw), 0))
  }

  predicate OffersBit(value: string, bit: string) {
    OptionOf(value).op in {"set", "toggle"} && bit in Names(OptionOf(value).args)
  }

  predicate NeedsBit(value: string, bit: string) {
    OptionOf(value).op == "isset" && bit in Names(OptionOf(value).args)
  }

  lemma AbsorbMeaning(b: Bits, value: string, bit: string)
    ensures
      var r := Absorb(b, OptionOf(value));
      && (bit in r.offers <==> bit in b.offers || OffersBit(value, bit))
      && (bit in r.needs <==> bit in b.needs || NeedsBit(value, bit))
      && (NoRepeats(b.offers) ==> NoRepeats(r.offers)) && (NoRepeats(b.needs) ==> NoRepeats(r.needs))
  {
    hide OptionOf, Names, AddAll, NoRepeats;
    var o := OptionOf(value);
    AddAllMeaning(b.offers, Names(o.args), bit);
    AddAllMeaning(b.needs, Names(o.args), bit);
  }

  /** A rule provides the names of its set and toggle options and needs those of its isset options,
      each once. */
  lemma {:induction false} CollectMeaning(values: seq<string>, bit: string)
    ensures bit in Collect(values).offers <==> exists i :: 0 <= i < |values| && OffersBit(values[i], bit)
    ensures bit in Collect(values).needs <==> exists i :: 0 <= i < |values| && NeedsBit(values[i], bit)
    ensures NoRepeats(Collect(values).offers) && NoRepeats(Collect(values).needs)
  {
    hide OptionOf, Absorb, OffersBit, NeedsBit;
    if values != [] {
      var n := |values| - 1;
      var front := values[..n];
      CollectMeaning(front, bit);
      assert forall i :: 0 <= i < n ==> front[i] == values[i];
      AbsorbMeaning(Collect(front), values[n], bit);
    }
  }

  method ParseFlowbits(raw: string) returns (bits: Bits)
    ensures bits == BitsOf(raw)
  {
    hide OptionOf, Find, Names, AddAll, Split, Join, TrimSpace, ToLower;
    var lower := ToLower(raw);
    bits := Bits([], []);
    var offset := 0;
    ghost var done: seq<string> := [];
    while offset < |lower|
      invariant Values(lower, 0) == done + Values(lower, offset)
      invariant bits == Collect(done)
    {
      var pos := Find(lower, TAG, offset);
      if pos < 0 { break; }
      var start := pos + |TAG|;
      var end := Find(lower, ";", start);
      if end < 0 { break; }
      var value := lower[start..end];
      var parts := Split(value);
      var op, args := TrimSpace(parts[0]), "";
      if |parts| > 1 {
        args := Join(parts[1..], ",");
      }
      OptionParts(value);
      assert (done + [value])[..|done|] == done;
      assert done + Values(lower, offset) == (done + [value]) + Values(lower, end + 1);
      done := done + [value];
      if op == "set" || op == "toggle" {
        var names := FlowbitNames(args);
        var offers := AppendAll(bits.offers, names);
        bits := bits.(offers := offers);
      } else if op == "isset" {
        var names := FlowbitNames(args);
        var needs := AppendAll(bits.needs, names);
        bits := bits.(needs := needs);
      }
      offset := end + 1;
    }
    assert done + [] == done;
  }
}
