/** Attributing alerts to flows: a two-direction tuple index against a scan of every flow. */
module FlowMatch {
  import opened Prelude
  import opened Keys

  /** A flow record; times are nanoseconds. */
  datatype Flow = Flow(
    srcIP: string, srcPort: int, dstIP: string, dstPort: int, protocol: string,
    start: int, duration: int, labelText: string)

  /** An alert. `endpoint` is what the address, port and timestamp texts parse to, if they do. */
  datatype Alert = Alert(
    gid: int, sid: int, rev: int, srcAP: string, dstAP: string, timestamp: string, proto: string,
    endpoint: Option<Endpoint>)

  datatype Endpoint = Endpoint(srcIP: string, srcPort: int, dstIP: string, dstPort: int, ts: int)

  function NormalizeProtocol(raw: string): string {
    var s := ToUpper(TrimSpace(raw));
    if s == "6" then "TCP" else if s == "17" then "UDP" else if s == "1" then "ICMP" else s
  }

  function FlowTuple(f: Flow): Tuple {
    Tuple(f.srcIP, f.srcPort, f.dstIP, f.dstPort, f.protocol)
  }

  function AlertTuple(p: Endpoint, proto: string): Tuple {
    Tuple(p.srcIP, p.srcPort, p.dstIP, p.dstPort, NormalizeProtocol(proto))
  }

  predicate During(f: Flow, ts: int) {
    f.start <= ts <= f.start + f.duration
  }

  // ----- the reference: a scan of all flows -----

  /** An alert's protocol text names the protocol: in any letter case, with white space around it, and
      for three of them also by number. */
  ghost predicate Names(proto: string, name: string) {
    var text := ToUpper(TrimSpace(proto));
    || (text == name && text !in {"1", "6", "17"})
    || (text == "1" && name == "ICMP") || (text == "6" && name == "TCP") || (text == "17" && name == "UDP")
  }

  /** The flow has the alert's endpoints, in either direction, and its protocol, and its interval with
      both ends holds the instant. */
  ghost predicate Hit(f: Flow, p: Endpoint, proto: string) {
    && (|| (f.srcIP == p.srcIP && f.srcPort == p.srcPort && f.dstIP == p.dstIP && f.dstPort == p.dstPort)
        || (f.srcIP == p.dstIP && f.srcPort == p.dstPort && f.dstIP == p.srcIP && f.dstPort == p.srcPort))
    && Names(proto, ToUpper(f.protocol)) && f.start <= p.ts <= f.start + f.duration
  }

  lemma NormalNames(proto: string, name: string)
    ensures ToUpper(NormalizeProtocol(proto)) == ToUpper(name) <==> Names(proto, ToUpper(name))
  {
    var text := ToUpper(TrimSpace(proto));
    UpperAgain(TrimSpace(proto));
    UpperAgain("TCP");
    assert ToUpper("TCP") == "TCP" && ToUpper("UDP") == "UDP" && ToUpper("ICMP") == "ICMP";
    hide ToUpper, TrimSpace;
  }

  lemma UpperAgain(s: string)
    ensures ToUpper(ToUpper(s)) == ToUpper(s)
  {
  }

  lemma HitIs(f: Flow, p: Endpoint, proto: string)
    ensures Hit(f, p, proto) <==>
      && (SameTuple(FlowTuple(f), AlertTuple(p, proto)) || SameTuple(Reversed(FlowTuple(f)), AlertTuple(p, proto)))
      && During(f, p.ts)
  {
    NormalNames(proto, f.protocol);
    hide ToUpper, NormalizeProtocol, Names;
  }

  /** Flow `i` is the match: among all hits it starts last, and it is the first that does. */
  ghost predicate IsMatch(flows: seq<Flow>, p: Endpoint, proto: string, i: nat) {
    && i < |flows| && Hit(flows[i], p, proto)
    && forall j :: 0 <= j < |flows| && Hit(flows[j], p, proto) ==>
         flows[j].start < flows[i].start || (flows[j].start == flows[i].start && i <= j)
  }

  // ----- the index -----

  predicate HasKey(f: Flow, key: string) {
    TupleKey(FlowTuple(f)) == key || TupleKey(Reversed(FlowTuple(f))) == key
  }

  /** The positions below `n` of the flows filed under `key`, ascending and without repetition. */
  function Positions(flows: seq<Flow>, key: string, n: nat): (r: seq<nat>)
    requires n <= |flows|
    ensures forall k :: 0 <= k < |r| ==> r[k] < n
  {
    if n == 0 then [] else
    Positions(flows, key, n - 1) + (if HasKey(flows[n - 1], key) then [n - 1] else [])
  }

  function Get(index: map<string, seq<nat>>, key: string): seq<nat> {
    if key in index then index[key] else []
  }

  datatype FlowSet = FlowSet(flows: seq<Flow>, index: map<string, seq<nat>>)

  ghost predicate Indexed(fs: FlowSet) {
    forall key :: Get(fs.index, key) == Positions(fs.flows, key, |fs.flows|)
  }

  lemma FileBoth(index: map<string, seq<nat>>, forward: string, reverse: string, i: nat, key: string)
    ensures
      var m1 := index[forward := Get(index, forward) + [i]];
      var m2 := if reverse != forward then m1[reverse := Get(m1, reverse) + [i]] else m1;
      Get(m2, key) == Get(index, key) + (if forward == key || reverse == key then [i] else [])
  {
  }

  /** The index of the first `n` flows. */
  ghost predicate IndexedTo(index: map<string, seq<nat>>, flows: seq<Flow>, n: nat)
    requires n <= |flows|
  {
    forall key :: Get(index, key) == Positions(flows, key, n)
  }

  lemma FileFlow(index: map<string, seq<nat>>, flows: seq<Flow>, i: nat)
    requires i < |flows| && IndexedTo(index, flows, i)
    ensures
      var forward, reverse := TupleKey(FlowTuple(flows[i])), TupleKey(Reversed(FlowTuple(flows[i])));
      var m1 := index[forward := Get(index, forward) + [i]];
      var m2 := if reverse != forward then m1[reverse := Get(m1, reverse) + [i]] else m1;
      IndexedTo(m2, flows, i + 1)
  {
    hide TupleKey;
    var forward, reverse := TupleKey(FlowTuple(flows[i])), TupleKey(Reversed(FlowTuple(flows[i])));
    var m1 := index[forward := Get(index, forward) + [i]];
    var m2 := if reverse != forward then m1[reverse := Get(m1, reverse) + [i]] else m1;
    forall key ensures Get(m2, key) == Positions(flows, key, i + 1) {
      FileBoth(index, forward, reverse, i, key);
      hide Get;
      assert Get(index, key) == Positions(flows, key, i);
    }
  }

  method BuildIndex(flows: seq<Flow>) returns (fs: FlowSet)
    ensures fs.flows == flows && Indexed(fs)
  {
    hide TupleKey;
    var index: map<string, seq<nat>> := map[];
    assert IndexedTo(index, flows, 0);
    hide IndexedTo;
    for i := 0 to |flows|
      invariant IndexedTo(index, flows, i)
    {
      FileFlow(index, flows, i);
      var forward, reverse := TupleKey(FlowTuple(flows[i])), TupleKey(Reversed(FlowTuple(flows[i])));
      index := index[forward := Get(index, forward) + [i]];
      if reverse != forward {
        index := index[reverse := Get(index, reverse) + [i]];
      }
    }
    fs := FlowSet(flows, index);
    IndexedWhole(fs);
  }

  lemma IndexedWhole(fs: FlowSet)
    requires IndexedTo(fs.index, fs.flows, |fs.flows|)
    ensures Indexed(fs)
  {
  }

  lemma {:induction false} PositionsAscend(flows: seq<Flow>, key: string, n: nat)
    requires n <= |flows|
    ensures forall k, l :: 0 <= k < l < |Positions(flows, key, n)| ==> Positions(flows, key, n)[k] < Positions(flows, key, n)[l]
    ensures forall i :: i in Positions(flows, key, n) <==> 0 <= i < n && HasKey(flows[i], key)
  {
    hide HasKey;
    if n > 0 { PositionsAscend(flows, key, n - 1); }
  }

  // ----- the indexed match -----

  function AbsDuration(d: int): int {
    if d < 0 then -d else d
  }

  function AlertKey(p: Endpoint, proto: string): string {
    TupleKey(AlertTuple(p, proto))
  }

  /** The candidates tried so far have `best` as their best: the closest start, first among equals. */
  ghost predicate BestOf(flows: seq<Flow>, cands: seq<nat>, ts: int, best: int) {
    && (best >= 0 ==> best in cands && best < |flows| && During(flows[best], ts))
    && forall k :: 0 <= k < |cands| && cands[k] < |flows| && During(flows[cands[k]], ts) ==>
         && best >= 0
         && (flows[cands[k]].start < flows[best].start
             || (flows[cands[k]].start == flows[best].start && best <= cands[k]))
  }

  /** Flow `i` is the best one filed under `key` at instant `ts`. */
  ghost predicate KeyMatch(flows: seq<Flow>, key: string, ts: int, i: nat) {
    && i < |flows| && HasKey(flows[i], key) && During(flows[i], ts)
    && forall j :: 0 <= j < |flows| && HasKey(flows[j], key) && During(flows[j], ts) ==>
         flows[j].start < flows[i].start || (flows[j].start == flows[i].start && i <= j)
  }

  /** The match of an alert, as a function of the flows. */
  ghost function MatchOf(flows: seq<Flow>, a: Alert): (r: Option<nat>)
    ensures r.Some? ==> r.value < |flows|
  {
    if a.endpoint.None? then None else
    var key, ts := AlertKey(a.endpoint.value, a.proto), a.endpoint.value.ts;
    if exists i :: KeyMatch(flows, key, ts, i) then
      var i :| KeyMatch(flows, key, ts, i); Some(i)
    else None
  }

  /** The loop over the candidates filed under the alert's key. */
  method BestCandidate(flows: seq<Flow>, cands: seq<nat>, ts: int) returns (best: int)
    requires forall k :: 0 <= k < |cands| ==> cands[k] < |flows|
    requires forall k, l :: 0 <= k < l < |cands| ==> cands[k] < cands[l]
    ensures BestOf(flows, cands, ts, best)
    ensures -1 <= best < |flows|
  {
    best := -1;
    var bestDistance := 0;
    for k := 0 to |cands|
      invariant -1 <= best < |flows|
      invariant best >= 0 ==> bestDistance == ts - flows[best].start
      invariant BestOf(flows, cands[..k], ts, best)
    {
      TryOne(flows, cands[..k], cands[k], ts, best);
      assert cands[..k + 1] == cands[..k] + [cands[k]];
      hide BestOf;
      var flow := flows[cands[k]];
      if !(ts < flow.start || ts > flow.start + flow.duration) {
        var distance := AbsDuration(ts - flow.start);
        if best < 0 || distance < bestDistance {
          best := cands[k];
          bestDistance := distance;
        }
      }
    }
    assert cands[..|cands|] == cands;
  }

  method MatchAlertToFlow(fs: FlowSet, a: Alert) returns (r: Option<nat>)
    requires Indexed(fs)
    ensures r == MatchOf(fs.flows, a)
  {
    if a.endpoint.None? { return None; }
    var p := a.endpoint.value;
    var key := AlertKey(p, a.proto);
    var cands := Get(fs.index, key);
    PositionsAscend(fs.flows, key, |fs.flows|);
    hide HasKey, AlertKey, Positions, BestOf;
    var best := BestCandidate(fs.flows, cands, p.ts);
    BestIsMatch(fs.flows, cands, key, p.ts, best);
    r := if best >= 0 then Some(best) else None;
  }

  /** One more candidate, with a larger position than those before it. */
  lemma TryOne(flows: seq<Flow>, cands: seq<nat>, c: nat, ts: int, best: int)
    requires BestOf(flows, cands, ts, best) && c < |flows|
    requires forall k :: 0 <= k < |cands| ==> cands[k] < c
    ensures BestOf(flows, cands + [c], ts,
                   if During(flows[c], ts) && (best < 0 || flows[c].start > flows[best].start) then c else best)
  {
    assert forall k :: 0 <= k < |cands| ==> (cands + [c])[k] == cands[k];
    assert best >= 0 ==> best in cands + [c];
    assert c in cands + [c];
  }

  lemma BestIsMatch(flows: seq<Flow>, cands: seq<nat>, key: string, ts: int, best: int)
    requires BestOf(flows, cands, ts, best)
    requires forall i :: i in cands <==> 0 <= i < |flows| && HasKey(flows[i], key)
    ensures best >= 0 ==> KeyMatch(flows, key, ts, best) && forall i :: KeyMatch(flows, key, ts, i) ==> i == best
    ensures best < 0 ==> !exists i :: KeyMatch(flows, key, ts, i)
  {
    hide HasKey;
    forall j | 0 <= j < |flows| && HasKey(flows[j], key) && During(flows[j], ts)
      ensures best >= 0
      ensures flows[j].start < flows[best].start || (flows[j].start == flows[best].start && best <= j)
    {
      assert j in cands;
      var k :| 0 <= k < |cands| && cands[k] == j;
    }
  }

  /** The indexed match is the scan's match: over addresses inside which no field could be a port it
      is the flow, among all flows with the alert's tuple in either direction whose interval holds
      its timestamp, that starts last, and the lowest-numbered of those. */
  lemma MatchRefinesScan(flows: seq<Flow>, a: Alert)
    requires forall i :: 0 <= i < |flows| ==> ClearAddresses(FlowTuple(flows[i]))
    requires a.endpoint.Some? && ClearAddresses(AlertTuple(a.endpoint.value, a.proto))
    ensures MatchOf(flows, a).Some? ==> IsMatch(flows, a.endpoint.value, a.proto, MatchOf(flows, a).value)
    ensures MatchOf(flows, a).None? ==> forall i :: 0 <= i < |flows| ==> !Hit(flows[i], a.endpoint.value, a.proto)
  {
    var p := a.endpoint.value;
    var key := AlertKey(p, a.proto);
    hide Hit, NormalizeProtocol, ToUpper;
    forall i | 0 <= i < |flows| ensures Hit(flows[i], p, a.proto) <==> HasKey(flows[i], key) && During(flows[i], p.ts) {
      HitIs(flows[i], p, a.proto);
      TupleKeyInjective(FlowTuple(flows[i]), AlertTuple(p, a.proto));
      TupleKeyInjective(Reversed(FlowTuple(flows[i])), AlertTuple(p, a.proto));
    }
    hide HasKey, TupleKey, AlertKey;
    if MatchOf(flows, a).None? {
      if i :| 0 <= i < |flows| && HasKey(flows[i], key) && During(flows[i], p.ts) {
        var b := SomeMatch(flows, key, p.ts, i);
        assert false;
      }
    }
  }

  /** Where some flow qualifies, a best one exists. */
  lemma SomeMatch(flows: seq<Flow>, key: string, ts: int, i: nat) returns (b: nat)
    requires i < |flows| && HasKey(flows[i], key) && During(flows[i], ts)
    ensures KeyMatch(flows, key, ts, b)
  {
    hide HasKey;
    b := i;
    var n := 0;
    while n < |flows|
      invariant 0 <= n <= |flows|
      invariant b < |flows| && HasKey(flows[b], key) && During(flows[b], ts)
      invariant forall j :: 0 <= j < n && HasKey(flows[j], key) && During(flows[j], ts) ==>
         flows[j].start < flows[b].start || (flows[j].start == flows[b].start && b <= j)
    {
      if HasKey(flows[n], key) && During(flows[n], ts)
         && (flows[n].start > flows[b].start || (flows[n].start == flows[b].start && n < b)) {
        b := n;
      }
      n := n + 1;
    }
  }

  /** The match a scan names is unique. */
  lemma MatchUnique(flows: seq<Flow>, p: Endpoint, proto: string, i: nat, j: nat)
    requires IsMatch(flows, p, proto, i) && IsMatch(flows, p, proto, j)
    ensures i == j
  {
    hide Hit;
  }

  // ----- all alerts of a run -----

  datatype MatchedAlert = MatchedAlert(alert: Alert, flow: nat)

  /** The key under which unmatched alerts are counted. */
  function UnmatchedKey(a: Alert): string {
    Itoa(a.gid) + ":" + (Itoa(a.sid) + ":" + (Itoa(a.rev) + "|" + (a.srcAP + "|" + (a.dstAP + "|" + a.timestamp))))
  }

  /** The alerts agree in what the key shows. */
  ghost predicate SameShown(a: Alert, b: Alert) {
    && a.gid == b.gid && a.sid == b.sid && a.rev == b.rev
    && a.srcAP == b.srcAP && a.dstAP == b.dstAP && a.timestamp == b.timestamp
  }

  function Shown(src: string, dst: string, time: string): string {
    src + "|" + (dst + "|" + time)
  }

  lemma UnmatchedKeyParts(a: Alert, b: Alert)
    requires UnmatchedKey(a) == UnmatchedKey(b)
    ensures a.gid == b.gid && a.sid == b.sid && a.rev == b.rev
    ensures Shown(a.srcAP, a.dstAP, a.timestamp) == Shown(b.srcAP, b.dstAP, b.timestamp)
  {
    ItoaPlain(a.gid);
    ItoaPlain(b.gid);
    ItoaPlain(a.sid);
    ItoaPlain(b.sid);
    ItoaPlain(a.rev);
    ItoaPlain(b.rev);
    hide Itoa;
    var a3, b3 := Shown(a.srcAP, a.dstAP, a.timestamp), Shown(b.srcAP, b.dstAP, b.timestamp);
    var a2, b2 := Itoa(a.rev) + "|" + a3, Itoa(b.rev) + "|" + b3;
    var a1, b1 := Itoa(a.sid) + ":" + a2, Itoa(b.sid) + ":" + b2;
    SplitUnique(Itoa(a.gid), a1, Itoa(b.gid), b1, ':');
    SplitUnique(Itoa(a.sid), a2, Itoa(b.sid), b2, ':');
    SplitUnique(Itoa(a.rev), a3, Itoa(b.rev), b3, '|');
    ItoaInjective(a.gid, b.gid);
    ItoaInjective(a.sid, b.sid);
    ItoaInjective(a.rev, b.rev);
  }

  /** Alerts whose addresses lack the separator share a key exactly when they agree in what it
      shows. */
  lemma UnmatchedKeyInjective(a: Alert, b: Alert)
    requires '|' !in a.srcAP && '|' !in a.dstAP && '|' !in b.srcAP && '|' !in b.dstAP
    ensures UnmatchedKey(a) == UnmatchedKey(b) <==> SameShown(a, b)
  {
    hide Itoa;
    if UnmatchedKey(a) == UnmatchedKey(b) {
      UnmatchedKeyParts(a, b);
      SplitUnique(a.srcAP, a.dstAP + "|" + a.timestamp, b.srcAP, b.dstAP + "|" + b.timestamp, '|');
      SplitUnique(a.dstAP, a.timestamp, b.dstAP, b.timestamp, '|');
    }
  }

  lemma ShownUnique(x: string, y: string, z: string, x': string, y': string, z': string)
    requires Shown(x, y, z) == Shown(x', y', z') && '|' !in x && '|' !in y && '|' !in z
    ensures x == x' && y == y' && z == z'
  {
    var s, p, p' := Shown(x, y, z), |x|, |x'|;
    var q, q' := p + 1 + |y|, p' + 1 + |y'|;
    assert s[p] == '|' && s[q] == '|' && forall k :: 0 <= k < |s| && s[k] == '|' ==> k == p || k == q;
    assert s[p'] == '|' && s[q'] == '|';
    assert p' == p && q' == q;
    assert s[..p] == x && s[p + 1..q] == y && s[q + 1..] == z;
    assert s[..p'] == x' && s[p' + 1..q'] == y' && s[q' + 1..] == z';
  }

  /** Cutting at a bar inside a part moves what is behind it into the next part. */
  lemma OtherParts(x: string, y: string, z: string) returns (x': string, y': string, z': string)
    requires '|' in x || '|' in y || '|' in z
    ensures Shown(x, y, z) == Shown(x', y', z') && (x != x' || y != y' || z != z')
  {
    if '|' in x {
      var i :| 0 <= i < |x| && x[i] == '|';
      x', y', z' := x[..i], x[i + 1..], y + "|" + z;
      assert x == x' + "|" + y';
    } else if '|' in y {
      var i :| 0 <= i < |y| && y[i] == '|';
      x', y', z' := x, y[..i], y[i + 1..] + "|" + z;
      assert y == y' + "|" + y[i + 1..];
    } else {
      var i :| 0 <= i < |z| && z[i] == '|';
      x', y', z' := x, y + "|" + z[..i], z[i + 1..];
      assert z == z[..i] + "|" + z';
    }
  }

  /** An alert shares its key with one that differs in what the key shows exactly when its
      addresses or its time contain the separator. */
  lemma UnmatchedKeyShared(a: Alert)
    ensures (exists b :: UnmatchedKey(b) == UnmatchedKey(a) && !SameShown(a, b))
       <==> '|' in a.srcAP || '|' in a.dstAP || '|' in a.timestamp
  {
    if '|' in a.srcAP || '|' in a.dstAP || '|' in a.timestamp {
      var x, y, z := OtherParts(a.srcAP, a.dstAP, a.timestamp);
      hide Itoa;
      var b := a.(srcAP := x, dstAP := y, timestamp := z);
      assert UnmatchedKey(b) == UnmatchedKey(a) && !SameShown(a, b);
    } else {
      hide UnmatchedKey, Shown;
      forall b | UnmatchedKey(b) == UnmatchedKey(a) ensures SameShown(a, b) {
        UnmatchedKeyParts(a, b);
        ShownUnique(a.srcAP, a.dstAP, a.timestamp, b.srcAP, b.dstAP, b.timestamp);
      }
    }
  }

  ghost function Matched(flows: seq<Flow>, alerts: seq<Alert>): seq<MatchedAlert> {
    if alerts == [] then [] else
    var last, front := alerts[|alerts| - 1], Matched(flows, alerts[..|alerts| - 1]);
    var m := MatchOf(flows, last);
    if m.Some? then front + [MatchedAlert(last, m.value)] else front
  }

  /** The places of the alerts that match a flow, in order. */
  ghost predicate MatchedPlaces(flows: seq<Flow>, alerts: seq<Alert>, places: seq<nat>) {
    && Ascends(places, |alerts|)
    && forall k :: 0 <= k < |alerts| ==> (k in places <==> MatchOf(flows, alerts[k]).Some?)
  }

  /** The matches are those of the alerts that have one, in the order of the alerts. */
  lemma {:induction false} MatchedInOrder(flows: seq<Flow>, alerts: seq<Alert>) returns (places: seq<nat>)
    ensures MatchedPlaces(flows, alerts, places) && |Matched(flows, alerts)| == |places|
    ensures forall i :: 0 <= i < |places| ==>
      && MatchOf(flows, alerts[places[i]]).Some?
      && Matched(flows, alerts)[i] == MatchedAlert(alerts[places[i]], MatchOf(flows, alerts[places[i]]).value)
  {
    hide MatchOf;
    if alerts == [] {
      places := [];
    } else {
      var n := |alerts| - 1;
      places := MatchedInOrder(flows, alerts[..n]);
      assert forall i :: 0 <= i < |places| ==> alerts[..n][places[i]] == alerts[places[i]];
      AscendsMore(places, n);
      if MatchOf(flows, alerts[n]).Some? {
        places := places + [n];
      }
    }
  }

  ghost function Unmatched(flows: seq<Flow>, alerts: seq<Alert>): set<string> {
    set a | a in alerts && MatchOf(flows, a).None? :: UnmatchedKey(a)
  }

  method MatchAlertsToFlows(fs: FlowSet, alerts: seq<Alert>) returns (matches: seq<MatchedAlert>, unmatched: nat)
    requires Indexed(fs)
    ensures matches == Matched(fs.flows, alerts)
    ensures unmatched == |Unmatched(fs.flows, alerts)|
  {
    hide MatchOf, Indexed, UnmatchedKey;
    matches := [];
    var keys: set<string> := {};
    for k := 0 to |alerts|
      invariant matches == Matched(fs.flows, alerts[..k])
      invariant keys == Unmatched(fs.flows, alerts[..k])
    {
      var m := MatchAlertToFlow(fs, alerts[k]);
      assert alerts[..k + 1][..k] == alerts[..k];
      assert alerts[..k + 1] == alerts[..k] + [alerts[k]];
      if m.None? {
        keys := keys + {UnmatchedKey(alerts[k])};
      } else {
        matches := matches + [MatchedAlert(alerts[k], m.value)];
      }
    }
    assert alerts[..|alerts|] == alerts;
    unmatched := |keys|;
  }
}
