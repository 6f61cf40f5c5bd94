/** Text helpers and the formatted keys of the analyser's maps. */
module Keys {

  // ----- text -----

  /** The white space of the standard trimming functions. */
  predicate IsSpace(c: char) {
    var u := c as int;
    9 <= u <= 13 || u == 0x20 || u == 0x85 || u == 0xa0 || u == 0x1680 || 0x2000 <= u <= 0x200a
    || u == 0x2028 || u == 0x2029 || u == 0x202f || u == 0x205f || u == 0x3000
  }

  function TrimLeft(s: string): string {
    if s != "" && IsSpace(s[0]) then TrimLeft(s[1..]) else s
  }

  function TrimRight(s: string): string {
    if s != "" && IsSpace(s[|s| - 1]) then TrimRight(s[..|s| - 1]) else s
  }

  function TrimSpace(s: string): string {
    TrimRight(TrimLeft(s))
  }

  ghost predicate Blank(s: string) {
    forall i :: 0 <= i < |s| ==> IsSpace(s[i])
  }

  lemma {:induction false} TrimLeftMeaning(s: string) returns (front: string)
    ensures s == front + TrimLeft(s) && Blank(front)
    ensures TrimLeft(s) != "" ==> !IsSpace(TrimLeft(s)[0])
  {
    hide IsSpace;
    front := "";
    if s != "" && IsSpace(s[0]) {
      front := TrimLeftMeaning(s[1..]);
      assert s == [s[0]] + s[1..] == [s[0]] + front + TrimLeft(s[1..]);
      front := [s[0]] + front;
    } else {
      assert s == "" + s;
    }
  }

  lemma {:induction false} TrimRightMeaning(s: string) returns (back: string)
    ensures s == TrimRight(s) + back && Blank(back)
    ensures TrimRight(s) != "" ==> !IsSpace(TrimRight(s)[|TrimRight(s)| - 1]) && TrimRight(s)[0] == s[0]
  {
    hide IsSpace;
    back := "";
    if s != "" && IsSpace(s[|s| - 1]) {
      var n := |s| - 1;
      back := TrimRightMeaning(s[..n]);
      assert s == s[..n] + [s[n]] == TrimRight(s[..n]) + (back + [s[n]]);
      back := back + [s[n]];
    } else {
      assert s == s + "";
    }
  }

  /** Trimming takes white space off both ends, and all of it. */
  lemma TrimSpaceMeaning(s: string) returns (front: string, back: string)
    ensures s == front + TrimSpace(s) + back && Blank(front) && Blank(back)
    ensures var t := TrimSpace(s); t != "" ==> !IsSpace(t[0]) && !IsSpace(t[|t| - 1])
  {
    hide IsSpace;
    front := TrimLeftMeaning(s);
    back := TrimRightMeaning(TrimLeft(s));
  }

  /** Case mapping of the ASCII letters; other characters are left alone. */
  function Upper(c: char): char {
    if 'a' <= c <= 'z' then (c as int - 32) as char else c
  }

  function Lower(c: char): char {
    if 'A' <= c <= 'Z' then (c as int + 32) as char else c
  }

  function ToUpper(s: string): (r: string)
    ensures |r| == |s|
  {
    seq(|s|, i requires 0 <= i < |s| => Upper(s[i]))
  }

  function ToLower(s: string): (r: string)
    ensures |r| == |s|
  {
    seq(|s|, i requires 0 <= i < |s| => Lower(s[i]))
  }

  // ----- decimal numbers -----

  function Digit(d: nat): char
    requires d < 10
  {
    '0' + d as char
  }

  function Digits(n: nat): string {
    if n < 10 then [Digit(n)] else Digits(n / 10) + [Digit(n % 10)]
  }

  /** `%d` formatting. */
  function Itoa(n: int): string {
    if n < 0 then "-" + Digits(-n) else Digits(n)
  }

  function Value(s: string): int {
    if s == "" then 0 else 10 * Value(s[..|s| - 1]) + (s[|s| - 1] as int - '0' as int)
  }

  predicate IsDigit(c: char) {
    '0' <= c <= '9'
  }

  lemma {:induction false} DigitsValue(n: nat)
    ensures Value(Digits(n)) == n
    ensures Digits(n) != "" && forall c :: c in Digits(n) ==> IsDigit(c)
  {
    if n < 10 {
      assert Digits(n)[..0] == "";
    } else {
      DigitsValue(n / 10);
      assert Digits(n)[..|Digits(n)| - 1] == Digits(n / 10);
    }
  }

  lemma ItoaInjective(a: int, b: int)
    requires Itoa(a) == Itoa(b)
    ensures a == b
  {
    hide Digits, Value;
    DigitsValue(if a < 0 then -a else a);
    DigitsValue(if b < 0 then -b else b);
    SignShows(a);
    SignShows(b);
    if a < 0 {
      assert Digits(-a) == Itoa(a)[1..] == Itoa(b)[1..] == Digits(-b);
    }
  }

  lemma SignShows(n: int)
    ensures Itoa(n) != "" && (n < 0 <==> Itoa(n)[0] == '-')
  {
    hide Digits;
    DigitsValue(if n < 0 then -n else n);
    if n >= 0 {
      assert Itoa(n)[0] in Digits(n);
    }
  }

  lemma ItoaPlain(n: int)
    ensures ':' !in Itoa(n) && '|' !in Itoa(n)
  {
    hide Digits;
    DigitsValue(if n < 0 then -n else n);
  }

  /** A separator that occurs in neither left part splits a string in one way. */
  lemma SplitUnique(a: string, b: string, a': string, b': string, sep: char)
    requires a + [sep] + b == a' + [sep] + b'
    requires sep !in a && sep !in a'
    ensures a == a' && b == b'
  {
    var s, s' := a + [sep] + b, a' + [sep] + b';
    assert s[|a|] == sep && forall i :: 0 <= i < |a| ==> s[i] != sep;
    assert s'[|a'|] == sep && forall i :: 0 <= i < |a'| ==> s'[i] != sep;
    assert |a| == |a'|;
    assert a == s[..|a|] && a' == s'[..|a'|];
    assert b == s[|a| + 1..] && b' == s'[|a'| + 1..];
  }

  // ----- keys -----

  function RuleKey(gid: int, sid: int): string {
    Itoa(gid) + [':'] + Itoa(sid)
  }

  /** A rule's map key stands for the rule. */
  lemma RuleKeyInjective(gid: int, sid: int, gid': int, sid': int)
    ensures RuleKey(gid, sid) == RuleKey(gid', sid') <==> gid == gid' && sid == sid'
  {
    hide Itoa;
    if RuleKey(gid, sid) == RuleKey(gid', sid') {
      ItoaPlain(gid);
      ItoaPlain(gid');
      SplitUnique(Itoa(gid), Itoa(sid), Itoa(gid'), Itoa(sid'), ':');
      ItoaInjective(gid, gid');
      ItoaInjective(sid, sid');
    }
  }

  datatype Tuple = Tuple(srcIP: string, srcPort: int, dstIP: string, dstPort: int, proto: string)

  function Reversed(t: Tuple): Tuple {
    Tuple(t.dstIP, t.dstPort, t.srcIP, t.srcPort, t.proto)
  }

  function TupleKey(t: Tuple): string {
    t.srcIP + ['|'] + (Itoa(t.srcPort) + ['|'] + (t.dstIP + ['|'] + (Itoa(t.dstPort) + ['|'] + ToUpper(t.proto))))
  }

  /** Reading a decimal number; any other text gives some number. */
  function Number(s: string): int {
    if s != "" && s[0] == '-' then -Value(s[1..]) else Value(s)
  }

  /** The texts `%d` formatting can give. */
  predicate Decimal(s: string) {
    Itoa(Number(s)) == s
  }

  lemma NumberOfItoa(n: int)
    ensures Number(Itoa(n)) == n && Decimal(Itoa(n))
  {
    hide Digits, Value;
    DigitsValue(if n < 0 then -n else n);
    SignShows(n);
    if n < 0 {
      assert Itoa(n)[1..] == Digits(-n);
    }
  }

  /** `s[i + 1..j]` is the field behind a bar of the text. */
  predicate FieldAt(s: string, i: nat, j: nat) {
    && i < j <= |s| && s[i] == '|' && (j == |s| || s[j] == '|')
    && forall k :: i < k < j ==> s[k] != '|'
  }

  /** No field behind a bar of the text could be a port. */
  predicate NoPortInside(s: string) {
    forall i, j :: 0 <= i < j <= |s| && FieldAt(s, i, j) ==> !Decimal(s[i + 1..j])
  }

  predicate ClearAddresses(t: Tuple) {
    NoPortInside(t.srcIP) && NoPortInside(t.dstIP)
  }

  ghost predicate SameTuple(t: Tuple, u: Tuple) {
    && t.srcIP == u.srcIP && t.srcPort == u.srcPort && t.dstIP == u.dstIP && t.dstPort == u.dstPort
    && ToUpper(t.proto) == ToUpper(u.proto)
  }

  /** If the one address ends inside the other, the other has a port inside. */
  lemma PortInside(x: string, n: int, rest: string, x': string, n': int, rest': string)
    requires x + ['|'] + (Itoa(n) + ['|'] + rest) == x' + ['|'] + (Itoa(n') + ['|'] + rest')
    requires |x| < |x'|
    ensures !NoPortInside(x')
  {
    ItoaPlain(n);
    NumberOfItoa(n);
    hide Itoa, Number;
    var s, port, at := x + ['|'] + (Itoa(n) + ['|'] + rest), Itoa(n), |x|;
    var end := at + 1 + |port|;
    assert s[at] == '|' && s[end] == '|' && s[at + 1..end] == port;
    assert forall k :: at < k < end ==> s[k] == port[k - at - 1];
    assert s[|x'|] == '|' && forall k :: 0 <= k < |x'| ==> s[k] == x'[k];
    assert end <= |x'|;
    assert FieldAt(x', at, end);
    assert x'[at + 1..end] == port;
  }

  /** An address and the port behind it, read from a key. */
  lemma HeadDetermined(x: string, n: int, rest: string, x': string, n': int, rest': string)
    requires x + ['|'] + (Itoa(n) + ['|'] + rest) == x' + ['|'] + (Itoa(n') + ['|'] + rest')
    requires NoPortInside(x) && NoPortInside(x')
    ensures x == x' && n == n' && rest == rest'
  {
    if |x| < |x'| {
      PortInside(x, n, rest, x', n', rest');
    } else if |x'| < |x| {
      PortInside(x', n', rest', x, n, rest);
    }
    ItoaPlain(n);
    ItoaPlain(n');
    hide Itoa, NoPortInside;
    var y, y' := Itoa(n) + ['|'] + rest, Itoa(n') + ['|'] + rest';
    assert x == (x + ['|'] + y)[..|x|] && x' == (x' + ['|'] + y')[..|x|];
    assert y == (x + ['|'] + y)[|x| + 1..] && y' == (x' + ['|'] + y')[|x| + 1..];
    SplitUnique(Itoa(n), rest, Itoa(n'), rest', '|');
    ItoaInjective(n, n');
  }

  /** When no field inside an address could be a port, equal keys mean equal tuples. */
  lemma TupleKeyInjective(t: Tuple, u: Tuple)
    requires ClearAddresses(t) && ClearAddresses(u)
    ensures TupleKey(t) == TupleKey(u) <==> SameTuple(t, u)
  {
    hide Itoa, ToUpper, NoPortInside;
    if TupleKey(t) == TupleKey(u) {
      var t3 := t.dstIP + ['|'] + (Itoa(t.dstPort) + ['|'] + ToUpper(t.proto));
      var u3 := u.dstIP + ['|'] + (Itoa(u.dstPort) + ['|'] + ToUpper(u.proto));
      HeadDetermined(t.srcIP, t.srcPort, t3, u.srcIP, u.srcPort, u3);
      HeadDetermined(t.dstIP, t.dstPort, ToUpper(t.proto), u.dstIP, u.dstPort, ToUpper(u.proto));
    }
  }

  /** With the separator inside an address, different tuples can share a key. */
  lemma TupleKeyCollides()
    ensures
      var t, u := Tuple("a|1|b", 2, "c", 3, "X"), Tuple("a", 1, "b|2|c", 3, "X");
      TupleKey(t) == TupleKey(u) && !SameTuple(t, u)
  {
    assert Itoa(1) == "1" && Itoa(2) == "2" && Itoa(3) == "3";
    var x := ToUpper("X");
    assert TupleKey(Tuple("a|1|b", 2, "c", 3, "X")) == "a|1|b|2|c|3|" + x;
    assert TupleKey(Tuple("a", 1, "b|2|c", 3, "X")) == "a|1|b|2|c|3|" + x;
  }
}
