/** Exactly which tuples share their key with a different one. */
module TupleKeys {
  import opened Keys

  /** The places of the four bars that a key is read at. */
  datatype Bars = Bars(a: nat, b: nat, c: nat, d: nat)

  /** A way to read the key: bars in order, with decimal numbers where the ports are and no lower
      case letter in the protocol. */
  predicate Reading(s: string, r: Bars) {
    && r.a < r.b < r.c < r.d < |s| && s[r.a] == '|' && s[r.b] == '|' && s[r.c] == '|' && s[r.d] == '|'
    && Decimal(s[r.a + 1..r.b]) && Decimal(s[r.c + 1..r.d]) && ToUpper(s[r.d + 1..]) == s[r.d + 1..]
  }

  function TupleAt(s: string, r: Bars): Tuple
    requires Reading(s, r)
  {
    Tuple(s[..r.a], Number(s[r.a + 1..r.b]), s[r.b + 1..r.c], Number(s[r.c + 1..r.d]), s[r.d + 1..])
  }

  /** The places the tuple's own parts put the bars at. */
  function BarsOf(t: Tuple): Bars {
    var a := |t.srcIP|;
    var b := a + 1 + |Itoa(t.srcPort)|;
    var c := b + 1 + |t.dstIP|;
    Bars(a, b, c, c + 1 + |Itoa(t.dstPort)|)
  }

  lemma UpperTwice(s: string)
    ensures ToUpper(ToUpper(s)) == ToUpper(s)
  {
  }

  lemma Cuts(v: string, w: string, x: string, y: string, z: string, s: string)
    requires s == v + ['|'] + (w + ['|'] + (x + ['|'] + (y + ['|'] + z)))
    ensures
      var a := |v|;
      var b := a + 1 + |w|;
      var c := b + 1 + |x|;
      var d := c + 1 + |y|;
      && d < |s| && s[a] == '|' && s[b] == '|' && s[c] == '|' && s[d] == '|'
      && s[..a] == v && s[a + 1..b] == w && s[b + 1..c] == x && s[c + 1..d] == y && s[d + 1..] == z
  {
  }

  lemma Pasted(s: string, a: nat, b: nat, c: nat, d: nat)
    requires a < b < c < d < |s| && s[a] == '|' && s[b] == '|' && s[c] == '|' && s[d] == '|'
    ensures s == s[..a] + ['|'] + (s[a + 1..b] + ['|'] + (s[b + 1..c] + ['|'] + (s[c + 1..d] + ['|'] + s[d + 1..])))
  {
  }

  /** A tuple's key can be read at its own bars, which gives the tuple back. */
  lemma ReadsOwn(t: Tuple)
    ensures Reading(TupleKey(t), BarsOf(t)) && SameTuple(TupleAt(TupleKey(t), BarsOf(t)), t)
  {
    NumberOfItoa(t.srcPort);
    NumberOfItoa(t.dstPort);
    UpperTwice(t.proto);
    hide Itoa, ToUpper, Decimal, Number;
    Cuts(t.srcIP, Itoa(t.srcPort), t.dstIP, Itoa(t.dstPort), ToUpper(t.proto), TupleKey(t));
  }

  /** Any reading of a text is the own reading of a tuple with that key. */
  lemma WritesBack(s: string, r: Bars)
    requires Reading(s, r)
    ensures TupleKey(TupleAt(s, r)) == s && BarsOf(TupleAt(s, r)) == r
  {
    hide Itoa, ToUpper, Number;
    Pasted(s, r.a, r.b, r.c, r.d);
  }

  lemma SameBars(t: Tuple, u: Tuple)
    requires SameTuple(t, u)
    ensures BarsOf(t) == BarsOf(u)
  {
    hide Itoa, ToUpper;
  }

  /** A tuple shares its key with a different one exactly when the key can be read at other bars. */
  lemma SharedExactly(t: Tuple)
    ensures (exists u :: TupleKey(u) == TupleKey(t) && !SameTuple(t, u))
       <==> exists r :: Reading(TupleKey(t), r) && r != BarsOf(t)
  {
    hide TupleKey, BarsOf, Reading, ToUpper, TupleAt;
    var key := TupleKey(t);
    if u :| TupleKey(u) == key && !SameTuple(t, u) {
      ReadsOwn(t);
      ReadsOwn(u);
      assert BarsOf(u) != BarsOf(t);
    }
    if r :| Reading(key, r) && r != BarsOf(t) {
      WritesBack(key, r);
      var u := TupleAt(key, r);
      if SameTuple(t, u) {
        SameBars(t, u);
      }
      assert TupleKey(u) == key && !SameTuple(t, u);
    }
  }
}
