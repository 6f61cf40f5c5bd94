/** The strategy that trims low-coverage rules of protocol groups with concentrated alerts. */
module ProtocolOverlap {
  import opened Prelude
  import opened Evaluation
  import opened Trim
  import opened Strategies
  import Sorting
  import opened Cuts

  datatype Row = Row(decision: TrimDecision, alerted: nat, malicious: nat, utilization: real)

  function Sum(s: seq<Row>): nat {
    if s == [] then 0 else Sum(s[..|s| - 1]) + s[|s| - 1].alerted
  }

  /** The ranking inside a group: most malicious flows first, then most flows, then highest
      utilization, then lowest signature id. */
  predicate RankLe(a: Row, b: Row) {
    if a.malicious != b.malicious then a.malicious > b.malicious
    else if a.alerted != b.alerted then a.alerted > b.alerted
    else if a.utilization != b.utilization then a.utilization > b.utilization
    else a.decision.rule.sid <= b.decision.rule.sid
  }

  lemma RankIsTotal()
    ensures Sorting.TotalPreorder(RankLe)
  {
  }

  /** The first `n` rows cover at least four fifths of the group's flows. */
  predicate Enough(ranked: seq<Row>, n: nat)
    requires n <= |ranked|
  {
    5 * Sum(ranked[..n]) >= 4 * Sum(ranked)
  }

  /** `keep` is the length of the shortest covering prefix. */
  ghost predicate ShortestCover(ranked: seq<Row>, keep: nat) {
    && 0 < keep <= |ranked| && Enough(ranked, keep)
    && forall n :: 0 < n < keep ==> !Enough(ranked, n)
  }

  datatype Candidate = Candidate(row: Row, groupAlerted: nat, groupKept: nat)

  function Marked(rows: seq<Row>, total: nat, keep: nat): (r: seq<Candidate>)
    ensures |r| == |rows|
  {
    seq(|rows|, i requires 0 <= i < |rows| => Candidate(rows[i], total, keep))
  }

  /** The result of one group: with at least four rules and three flows, and a covering prefix of
      at most half the rules, the rest of the ranking; otherwise nothing. */
  ghost predicate LowCoverage(group: seq<Row>, ranked: seq<Row>, keep: nat, out: seq<Candidate>) {
    && Sorting.SortOf(group, ranked, RankLe) && keep <= |ranked|
    && (|group| >= 4 && Sum(ranked) >= 3 ==> ShortestCover(ranked, keep))
    && out == if |group| >= 4 && Sum(ranked) >= 3 && keep <= |group| / 2
              then Marked(ranked[keep..], Sum(ranked), keep) else []
  }

  ghost predicate IsLowCoverage(group: seq<Row>, out: seq<Candidate>) {
    exists ranked, keep :: LowCoverage(group, ranked, keep, out)
  }

  method LowCoverageProtocolRules(group: seq<Row>) returns (out: seq<Candidate>)
    ensures IsLowCoverage(group, out)
  {
    RankIsTotal();
    var g := Sorting.SortSlice(group, RankLe);
    Sorting.SameElements(group, g);
    hide Sorting.SortOf, Sum, Enough;
    out := [];
    if |group| < 4 {
      assert LowCoverage(group, g, 0, out);
      return;
    }
    var total := TotalAlerted(g);
    if total < 3 {
      assert LowCoverage(group, g, 0, out);
      return;
    }
    var keep := CoveringPrefix(g, total);
    if keep >= |g| || keep > |g| / 2 {
      assert LowCoverage(group, g, keep, out);
      return;
    }
    for i := keep to |g|
      invariant out == Marked(g[keep..i], total, keep)
    {
      assert g[keep..i + 1] == g[keep..i] + [g[i]];
      out := out + [Candidate(g[i], total, keep)];
    }
    assert g[keep..|g|] == g[keep..];
    assert LowCoverage(group, g, keep, out);
  }

  method TotalAlerted(g: seq<Row>) returns (total: nat)
    ensures total == Sum(g)
  {
    total := 0;
    for i := 0 to |g|
      invariant total == Sum(g[..i])
    {
      assert g[..i + 1][..i] == g[..i];
      total := total + g[i].alerted;
    }
    assert g[..|g|] == g;
  }

  /** The loop that accumulates coverage until four fifths are reached. */
  method CoveringPrefix(g: seq<Row>, total: nat) returns (keep: nat)
    requires total == Sum(g) > 0
    ensures ShortestCover(g, keep)
  {
    var cumulative := 0;
    keep := |g|;
    for i := 0 to |g|
      invariant cumulative == Sum(g[..i])
      invariant forall n :: 0 < n <= i ==> !Enough(g, n)
    {
      assert g[..i + 1][..i] == g[..i];
      cumulative := cumulative + g[i].alerted;
      FourFifths(cumulative, total);
      if cumulative as real / total as real >= 0.8 {
        keep := i + 1;
        return;
      }
    }
    assert g[..|g|] == g;
    assert Enough(g, |g|);
  }

  /** The quotient test is the integer test. */
  lemma FourFifths(c: nat, t: nat)
    requires t > 0
    ensures c as real / t as real >= 0.8 <==> 5 * c >= 4 * t
  {
    var q := c as real / t as real;
    assert q * t as real == c as real;
    if q >= 0.8 {
      assert c as real >= 0.8 * t as real;
    } else {
      assert c as real < 0.8 * t as real;
    }
  }

  // ----- what a non-empty result means -----

  lemma {:induction false} SumSplit(s: seq<Row>, n: nat)
    requires n <= |s|
    ensures Sum(s) == Sum(s[..n]) + Sum(s[n..])
  {
    if n == |s| {
      assert s[..n] == s;
    } else {
      var front := s[..|s| - 1];
      SumSplit(front, n);
      assert front[..n] == s[..n];
      assert s[n..][..|s| - n - 1] == front[n..];
    }
  }

  /** The rules proposed hold at most a fifth of the group's flows, are at least half of its
      rules, and none is attributed to more malicious flows than any rule kept. */
  lemma LowCoverageMeaning(group: seq<Row>, ranked: seq<Row>, keep: nat, out: seq<Candidate>)
    requires LowCoverage(group, ranked, keep, out) && out != []
    ensures ShortestCover(ranked, keep) && |out| == |ranked| - keep
    ensures forall i :: 0 <= i < |out| ==> out[i].row == ranked[keep + i]
    ensures 5 * Sum(ranked[keep..]) <= Sum(ranked)
    ensures 2 * |out| >= |group|
    ensures forall i, j :: 0 <= i < keep && 0 <= j < |out| ==> out[j].row.malicious <= ranked[i].malicious
  {
    Sorting.SameElements(group, ranked);
    SumSplit(ranked, keep);
    forall i, j | 0 <= i < keep && 0 <= j < |out| ensures out[j].row.malicious <= ranked[i].malicious {
      assert RankLe(ranked[i], ranked[keep + j]);
    }
  }

  /** More malicious flows; among equals more flows; then a higher utilization; then a lower
      signature id. */
  ghost predicate RanksBefore(a: Row, b: Row) {
    || a.malicious > b.malicious
    || (a.malicious == b.malicious && a.alerted > b.alerted)
    || (a.malicious == b.malicious && a.alerted == b.alerted && a.utilization > b.utilization)
    || (a.malicious == b.malicious && a.alerted == b.alerted && a.utilization == b.utilization
        && a.decision.rule.sid < b.decision.rule.sid)
  }

  /** The `keep` first rows cover four fifths of the flows, and one row less does not. */
  ghost predicate JustCovers(ranked: seq<Row>, keep: nat) {
    && 0 < keep <= |ranked|
    && 5 * Sum(ranked[..keep]) >= 4 * Sum(ranked) && 5 * Sum(ranked[..keep - 1]) < 4 * Sum(ranked)
  }

  /** When a group has a result, and which: it needs four rules and three flows, and the prefix of
      the ranking that just covers four fifths must be at most half of it; the result is the rest. */
  lemma LowCoverageExactly(group: seq<Row>, ranked: seq<Row>, keep: nat, out: seq<Candidate>)
    requires LowCoverage(group, ranked, keep, out)
    ensures multiset(ranked) == multiset(group) && forall i, j :: 0 <= i < j < |ranked| ==> !RanksBefore(ranked[j], ranked[i])
    ensures |group| >= 4 && Sum(ranked) >= 3 ==> JustCovers(ranked, keep)
    ensures out != [] <==> |group| >= 4 && Sum(ranked) >= 3 && 2 * keep <= |group|
    ensures out != [] ==>
      keep + |out| == |ranked| && forall i :: 0 <= i < |out| ==> out[i] == Candidate(ranked[keep + i], Sum(ranked), keep)
  {
    Sorting.SameElements(group, ranked);
    RankIsStrict(ranked);
    hide RankLe, RanksBefore, ShortestCover, JustCovers, Sum;
    if |group| >= 4 && Sum(ranked) >= 3 {
      CoverIsTight(ranked, keep);
    }
  }

  lemma CoverIsTight(ranked: seq<Row>, keep: nat)
    requires ShortestCover(ranked, keep) && Sum(ranked) > 0
    ensures JustCovers(ranked, keep) && 0 < keep <= |ranked|
  {
    if keep == 1 {
      assert Sum(ranked[..0]) == 0;
    } else {
      hide Sum;
      assert !Enough(ranked, keep - 1);
    }
  }

  lemma RankIsStrict(ranked: seq<Row>)
    requires Sorting.SortedBy(ranked, RankLe)
    ensures forall i, j :: 0 <= i < j < |ranked| ==> !RanksBefore(ranked[j], ranked[i])
  {
    forall i, j | 0 <= i < j < |ranked| ensures !RanksBefore(ranked[j], ranked[i]) {
      assert RankLe(ranked[i], ranked[j]);
    }
  }

  // ----- ties inside a group -----

  function Itself(row: Row): Row {
    row
  }

  lemma TiedRows(a: Row, b: Row)
    requires Ties(a, b, RankLe)
    ensures a.alerted == b.alerted
  {
  }

  /** Every sort of a group has the same running sums, so the same covering prefix. */
  lemma {:induction false} SameSums(r: seq<Row>, r': seq<Row>, n: nat)
    requires Sorting.SortedBy(r, RankLe) && Sorting.SortOf(r, r', RankLe) && n <= |r|
    ensures |r| == |r'| && Sum(r[..n]) == Sum(r'[..n])
  {
    hide RankLe;
    Sorting.SameElements(r, r');
    if n > 0 {
      SameSums(r, r', n - 1);
      RankIsTotal();
      SortsTie(r, r', RankLe, n - 1);
      TiedRows(r[n - 1], r'[n - 1]);
      assert r[..n][..n - 1] == r[..n - 1] && r'[..n][..n - 1] == r'[..n - 1];
    }
  }

  lemma SameCover(r: seq<Row>, r': seq<Row>, keep: nat, keep': nat)
    requires Sorting.SortedBy(r, RankLe) && Sorting.SortOf(r, r', RankLe)
    requires ShortestCover(r, keep) && ShortestCover(r', keep')
    ensures keep == keep'
  {
    hide RankLe, Sorting.SortOf, Sorting.SortedBy, Sum;
    forall n: nat | n <= |r| ensures |r| == |r'| && Enough(r, n) == Enough(r', n) {
      SameSums(r, r', n);
      SameSums(r, r', |r|);
      assert r[..|r|] == r && r'[..|r'|] == r';
    }
  }

  lemma CoverCarries(r: seq<Row>, r': seq<Row>, keep: nat)
    requires Sorting.SortedBy(r, RankLe) && Sorting.SortOf(r, r', RankLe) && ShortestCover(r, keep)
    ensures |r| == |r'| && Sum(r) == Sum(r') && ShortestCover(r', keep)
  {
    hide RankLe, Sorting.SortOf, Sorting.SortedBy, Sum;
    SameSums(r, r', |r|);
    assert r[..|r|] == r && r'[..|r'|] == r';
    forall n: nat | n <= |r| ensures Enough(r, n) == Enough(r', n) {
      SameSums(r, r', n);
    }
  }

  /** What is behind the cut, given what is in front of it. */
  lemma RestByFront(r: seq<Row>, r': seq<Row>, n: nat)
    requires multiset(r) == multiset(r') && n <= |r| == |r'|
    ensures multiset(r[n..]) == multiset(r'[n..]) <==> multiset(r[..n]) == multiset(r'[..n])
  {
    assert r == r[..n] + r[n..] && r' == r'[..n] + r'[n..];
    Cancel(multiset(r[..n]), multiset(r[n..]), multiset(r'[..n]), multiset(r'[n..]));
  }

  lemma Cancel<T>(a: multiset<T>, b: multiset<T>, a': multiset<T>, b': multiset<T>)
    requires a + b == a' + b'
    ensures a == a' <==> b == b'
  {
    assert a == (a + b) - b && a' == (a' + b') - b';
    assert b == (a + b) - a && b' == (a' + b') - a';
  }

  lemma MarkedSame(r: seq<Row>, r': seq<Row>, total: nat, keep: nat)
    ensures multiset(Marked(r, total, keep)) == multiset(Marked(r', total, keep)) <==> multiset(r) == multiset(r')
  {
    var f := (row: Row) => Candidate(row, total, keep);
    var g := (c: Candidate) => c.row;
    var m, m' := Marked(r, total, keep), Marked(r', total, keep);
    assert Map(f, r) == m && Map(f, r') == m' && Map(g, m) == r && Map(g, m') == r';
    if multiset(r) == multiset(r') {
      MapMultiset(f, r, r');
    }
    if multiset(m) == multiset(m') {
      MapMultiset(g, m, m');
    }
  }

  lemma ItselfMap(s: seq<Row>)
    ensures Map(Itself, s) == s
  {
    var m := Map(Itself, s);
    assert forall i :: 0 <= i < |s| ==> m[i] == Itself(s[i]);
  }

  /** The group has a result, and two different rows tie across its cut. */
  ghost predicate GroupTie(group: seq<Row>) {
    exists ranked, keep, out :: LowCoverage(group, ranked, keep, out) && out != [] && CutTie(ranked, keep, RankLe, Itself)
  }

  /** Every sort of the group gives the same candidates. */
  ghost predicate Settled(group: seq<Row>) {
    forall out, out' :: IsLowCoverage(group, out) && IsLowCoverage(group, out') ==> multiset(out) == multiset(out')
  }

  lemma SortAgain(group: seq<Row>, r: seq<Row>, r': seq<Row>)
    requires Sorting.SortOf(group, r, RankLe) && Sorting.SortOf(group, r', RankLe)
    ensures Sorting.SortedBy(r, RankLe) && Sorting.SortOf(r, r', RankLe) && |r| == |r'| == |group|
  {
    Sorting.SameElements(group, r);
    Sorting.SameElements(group, r');
  }

  /** The candidates of two sorts of a group agree, unless rows tie across the cut. */
  lemma LowCoverageUnique(group: seq<Row>, ranked: seq<Row>, keep: nat, out: seq<Candidate>,
                          ranked': seq<Row>, keep': nat, out': seq<Candidate>)
    requires LowCoverage(group, ranked, keep, out) && LowCoverage(group, ranked', keep', out')
    requires out != [] ==> !CutTie(ranked, keep, RankLe, Itself)
    ensures multiset(out) == multiset(out')
  {
    hide RankLe, Sum, CutTie, Marked, ShortestCover;
    SortAgain(group, ranked, ranked');
    SameSums(ranked, ranked', |ranked|);
    assert ranked[..|ranked|] == ranked && ranked'[..|ranked'|] == ranked';
    if |group| >= 4 && Sum(ranked) >= 3 {
      SameCover(ranked, ranked', keep, keep');
      if keep <= |group| / 2 {
        RankIsTotal();
        CutSame(ranked, ranked', keep, RankLe, Itself);
        ItselfMap(ranked[..keep]);
        ItselfMap(ranked'[..keep]);
        RestByFront(ranked, ranked', keep);
        MarkedSame(ranked[keep..], ranked'[keep..], Sum(ranked), keep);
      }
    }
  }

  /** A group gives the same candidates in every sort if and only if no two different rows tie
      across its cut. */
  lemma SettledExactly(group: seq<Row>)
    ensures Settled(group) <==> !GroupTie(group)
  {
    hide LowCoverage, CutTie;
    if GroupTie(group) {
      var ranked, keep, out :| LowCoverage(group, ranked, keep, out) && out != [] && CutTie(ranked, keep, RankLe, Itself);
      assert IsLowCoverage(group, out);
      var out' := TieUnsettles(group, ranked, keep, out);
    } else {
      forall out, out' | IsLowCoverage(group, out) && IsLowCoverage(group, out') ensures multiset(out) == multiset(out') {
        var ranked, keep :| LowCoverage(group, ranked, keep, out);
        var ranked', keep' :| LowCoverage(group, ranked', keep', out');
        LowCoverageUnique(group, ranked, keep, out, ranked', keep', out');
      }
    }
  }

  lemma TieUnsettles(group: seq<Row>, ranked: seq<Row>, keep: nat, out: seq<Candidate>) returns (out': seq<Candidate>)
    requires LowCoverage(group, ranked, keep, out) && out != [] && CutTie(ranked, keep, RankLe, Itself)
    ensures IsLowCoverage(group, out') && multiset(out') != multiset(out)
  {
    hide RankLe, Sum, CutTie, Marked, ShortestCover;
    RankIsTotal();
    Sorting.SameElements(group, ranked);
    var ranked' := CutDiffers(ranked, keep, RankLe, Itself);
    ItselfMap(ranked[..keep]);
    ItselfMap(ranked'[..keep]);
    CoverCarries(ranked, ranked', keep);
    RestByFront(ranked, ranked', keep);
    out' := Marked(ranked'[keep..], Sum(ranked), keep);
    MarkedSame(ranked[keep..], ranked'[keep..], Sum(ranked), keep);
    assert LowCoverage(group, ranked', keep, out');
  }

  // ----- all groups -----

  /** The ranking across groups: largest groups first, then fewest flows, lowest utilization,
      lowest signature id. */
  predicate CandidateLe(a: Candidate, b: Candidate) {
    if a.groupAlerted != b.groupAlerted then a.groupAlerted > b.groupAlerted
    else if a.row.alerted != b.row.alerted then a.row.alerted < b.row.alerted
    else if a.row.utilization != b.row.utilization then a.row.utilization < b.row.utilization
    else a.row.decision.rule.sid <= b.row.decision.rule.sid
  }

  lemma CandidatesTotal()
    ensures Sorting.TotalPreorder(CandidateLe)
  {
  }

  /** From a group with more flows; then fewer flows of its own; then a lower utilization; then a
      lower signature id. */
  ghost predicate TrimsBefore(a: Candidate, b: Candidate) {
    || a.groupAlerted > b.groupAlerted
    || (a.groupAlerted == b.groupAlerted && a.row.alerted < b.row.alerted)
    || (a.groupAlerted == b.groupAlerted && a.row.alerted == b.row.alerted && a.row.utilization < b.row.utilization)
    || (a.groupAlerted == b.groupAlerted && a.row.alerted == b.row.alerted && a.row.utilization == b.row.utilization
        && a.row.decision.rule.sid < b.row.decision.rule.sid)
  }

  lemma CandidatesInOrder(ranked: seq<Candidate>)
    requires Sorting.SortedBy(ranked, CandidateLe)
    ensures forall i, j :: 0 <= i < j < |ranked| ==> !TrimsBefore(ranked[j], ranked[i])
  {
    forall i, j | 0 <= i < j < |ranked| ensures !TrimsBefore(ranked[j], ranked[i]) {
      assert CandidateLe(ranked[i], ranked[j]);
    }
  }

  function DecisionOf(c: Candidate): TrimDecision {
    c.row.decision
  }

  function Decisions(cs: seq<Candidate>): seq<TrimDecision> {
    Map(DecisionOf, cs)
  }

  /** The candidates of all groups, one group after another. */
  ghost predicate Gathered(groups: seq<seq<Row>>, found: seq<Candidate>) {
    if groups == [] then found == []
    else
      var n := |groups| - 1;
      exists k :: 0 <= k <= |found| && Gathered(groups[..n], found[..k]) && IsLowCoverage(groups[n], found[k..])
  }

  /** A ranking of the candidates of all groups. */
  ghost predicate RankedFrom(groups: seq<seq<Row>>, ranked: seq<Candidate>) {
    exists found :: Gathered(groups, found) && Sorting.SortOf(found, ranked, CandidateLe)
  }

  ghost predicate ProposedFrom(groups: seq<seq<Row>>, factor: real, out: seq<TrimDecision>) {
    exists ranked ::
      && RankedFrom(groups, ranked) && (forall i, j :: 0 <= i < j < |ranked| ==> !TrimsBefore(ranked[j], ranked[i]))
      && out == Proposal(Decisions(ranked), 0.25, factor) && ScaledPrefix(out, Decisions(ranked), 0.25, factor)
  }

  /** `groups` is the group map in the order it happens to be ranged over. */
  method ProtocolAlertOverlap(groups: seq<seq<Row>>, factor: real) returns (out: seq<TrimDecision>)
    ensures factor <= 0.0 ==> out == []
    ensures factor > 0.0 ==> ProposedFrom(groups, factor, out)
  {
    var f := BoundedFactor(factor);
    if f <= 0.0 { return []; }
    var candidates := Gather(groups);
    CandidatesTotal();
    var sorted := Sorting.SortSlice(candidates, CandidateLe);
    Sorting.SameElements(candidates, sorted);
    assert RankedFrom(groups, sorted);
    CandidatesInOrder(sorted);
    hide CandidateLe, TrimsBefore;
    ProposalIsScaled(Decisions(sorted), 0.25, factor);
    hide RankedFrom, Scaled;
    if |candidates| == 0 {
      out := [];
      assert out == Proposal(Decisions(sorted), 0.25, factor);
      return;
    }
    LimitInRange(|sorted|, 0.25, f);
    out := Prefix(Decisions(sorted), ScaledLimit(|sorted|, 0.25, f));
    assert out == Proposal(Decisions(sorted), 0.25, factor);
  }

  method Gather(groups: seq<seq<Row>>) returns (candidates: seq<Candidate>)
    ensures Gathered(groups, candidates)
  {
    hide IsLowCoverage;
    candidates := [];
    for i := 0 to |groups|
      invariant Gathered(groups[..i], candidates)
    {
      var low := LowCoverageProtocolRules(groups[i]);
      assert groups[..i + 1][..i] == groups[..i];
      ghost var k := |candidates|;
      assert (candidates + low)[..k] == candidates && (candidates + low)[k..] == low;
      candidates := candidates + low;
    }
    assert groups[..|groups|] == groups;
  }

  // ----- ties between candidates -----

  /** How many candidates are proposed. */
  function Limit(n: nat, factor: real): (r: nat)
    ensures r <= n
  {
    LimitInRange(n, 0.25, BoundedFactor(factor));
    ScaledLimit(n, 0.25, BoundedFactor(factor))
  }

  lemma ProposalIsCut(ranked: seq<Candidate>, factor: real)
    ensures Proposal(Decisions(ranked), 0.25, factor) == Map(DecisionOf, ranked[..Limit(|ranked|, factor)])
  {
    hide ScaledLimit, BoundedFactor;
  }

  /** Every sort of the candidates proposes the same decisions if and only if no two candidates with
      different decisions tie across the cut. */
  lemma ProposalExactly(found: seq<Candidate>, ranked: seq<Candidate>, factor: real)
    requires Sorting.SortOf(found, ranked, CandidateLe)
    ensures (forall ranked' :: Sorting.SortOf(found, ranked', CandidateLe) ==>
               multiset(Proposal(Decisions(ranked'), 0.25, factor)) == multiset(Proposal(Decisions(ranked), 0.25, factor)))
       <==> !CutTie(ranked, Limit(|found|, factor), CandidateLe, DecisionOf)
  {
    CandidatesTotal();
    hide CandidateLe, Limit, Proposal, Decisions, CutTie;
    Sorting.SameElements(found, ranked);
    var n := Limit(|found|, factor);
    ProposalIsCut(ranked, factor);
    if CutTie(ranked, n, CandidateLe, DecisionOf) {
      var other := CutDiffers(ranked, n, CandidateLe, DecisionOf);
      ProposalIsCut(other, factor);
      assert Sorting.SortOf(found, other, CandidateLe);
    } else {
      forall ranked' | Sorting.SortOf(found, ranked', CandidateLe)
        ensures multiset(Proposal(Decisions(ranked'), 0.25, factor)) == multiset(Proposal(Decisions(ranked), 0.25, factor))
      {
        CutSame(ranked, ranked', n, CandidateLe, DecisionOf);
        ProposalIsCut(ranked', factor);
      }
    }
  }

  /** The candidates a settled group gives. */
  ghost function LowOf(group: seq<Row>): multiset<Candidate> {
    if exists out :: IsLowCoverage(group, out) then
      var out :| IsLowCoverage(group, out);
      multiset(out)
    else multiset{}
  }

  ghost function AllLow(groups: seq<seq<Row>>): multiset<Candidate> {
    if groups == [] then multiset{} else AllLow(groups[..|groups| - 1]) + LowOf(groups[|groups| - 1])
  }

  lemma {:induction false} GatheredIs(groups: seq<seq<Row>>, found: seq<Candidate>)
    requires Gathered(groups, found) && forall g :: g in groups ==> Settled(g)
    ensures multiset(found) == AllLow(groups)
  {
    hide IsLowCoverage, LowOf, Settled;
    if groups != [] {
      var n := |groups| - 1;
      var k :| 0 <= k <= |found| && Gathered(groups[..n], found[..k]) && IsLowCoverage(groups[n], found[k..]);
      hide Gathered;
      assert forall g :: g in groups[..n] ==> g in groups;
      GatheredIs(groups[..n], found[..k]);
      assert groups[n] in groups;
      LowIs(groups[n], found[k..]);
      assert found == found[..k] + found[k..];
    }
  }

  lemma LowIs(group: seq<Row>, out: seq<Candidate>)
    requires Settled(group) && IsLowCoverage(group, out)
    ensures multiset(out) == LowOf(group)
  {
    hide IsLowCoverage;
  }

  lemma {:induction false} AllLowParts(a: seq<seq<Row>>, g: seq<Row>, b: seq<seq<Row>>)
    ensures AllLow(a + [g] + b) == AllLow(a + b) + LowOf(g)
    decreases |b|
  {
    hide LowOf;
    if b == [] {
      assert a + [g] + b == a + [g] && a + b == a && (a + [g])[..|a|] == a;
    } else {
      var n := |b| - 1;
      AllLowParts(a, g, b[..n]);
      LastPart(a + [g], b);
      LastPart(a, b);
    }
  }

  lemma LastPart(a: seq<seq<Row>>, b: seq<seq<Row>>)
    requires b != []
    ensures AllLow(a + b) == AllLow(a + b[..|b| - 1]) + LowOf(b[|b| - 1])
  {
    hide LowOf;
    assert (a + b)[..|a + b| - 1] == a + b[..|b| - 1];
  }

  /** The groups may be ranged over in any order. */
  lemma {:induction false} AnyOrder(groups: seq<seq<Row>>, groups': seq<seq<Row>>)
    requires multiset(groups) == multiset(groups')
    ensures AllLow(groups) == AllLow(groups')
    decreases |groups|
  {
    if groups == [] {
      Sorting.SameElements(groups, groups');
    } else {
      var a, b := FindFirst(groups, groups');
      hide AllLow, LowOf;
      AnyOrder(groups[1..], a + b);
      AllLowParts(a, groups[0], b);
      AllLowParts([], groups[0], groups[1..]);
    }
  }

  /** After a rollback the strategy is asked again with half the factor: it queries the same groups,
      ranges over them in another order and sorts anew. It proposes no decision it did not propose
      before, when no rows of a group and no candidates with different decisions tie across the
      cuts. */
  lemma OverlapShrinks(groups: seq<seq<Row>>, groups': seq<seq<Row>>, found: seq<Candidate>, found': seq<Candidate>,
                       ranked: seq<Candidate>, ranked': seq<Candidate>, factor: real)
    requires multiset(groups) == multiset(groups') && forall g :: g in groups ==> !GroupTie(g)
    requires Gathered(groups, found) && Sorting.SortOf(found, ranked, CandidateLe)
    requires Gathered(groups', found') && Sorting.SortOf(found', ranked', CandidateLe)
    requires !CutTie(ranked, Limit(|found|, factor), CandidateLe, DecisionOf)
    ensures multiset(Proposal(Decisions(ranked'), 0.25, factor / 2.0)) <= multiset(Proposal(Decisions(ranked), 0.25, factor))
  {
    hide Gathered, GroupTie, Settled, CandidateLe, Proposal, CutTie, Limit;
    Sorting.SameElements(groups, groups');
    forall g | g in groups ensures Settled(g) { SettledExactly(g); }
    GatheredIs(groups, found);
    GatheredIs(groups', found');
    AnyOrder(groups, groups');
    ProposalExactly(found, ranked, factor);
    HalvedProposalIsPrefix(Decisions(ranked'), 0.25, factor);
    PrefixMultiset(Proposal(Decisions(ranked'), 0.25, factor / 2.0), Proposal(Decisions(ranked'), 0.25, factor));
  }

  lemma PrefixMultiset<T>(a: seq<T>, b: seq<T>)
    requires a <= b
    ensures multiset(a) <= multiset(b)
  {
    assert b == a + b[|a|..];
  }
}
