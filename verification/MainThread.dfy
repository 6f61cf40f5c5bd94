/** The main thread's command protocol: reference-counted commands are broadcast to the packet
    threads' queues, worked on there, and reaped by the main thread. Every interleaving of the
    threads is a sequence of the steps below. A pointer to a command is the command's number. */
module MainThread {
  import opened Prelude

  /** Where an analyzer's command references are. */
  datatype Work = Work(pending: seq<nat>, hand: Option<nat>, uncompleted: seq<nat>, completed: seq<nat>)

  datatype Thread = NoThread | Running | Exited

  datatype Pig = Pig(analyzer: Option<Work>, thread: Thread)

  /** The commands that exist with their reference counts, how often each was destroyed, and
      whether a destroyed command was touched or a count went below zero. */
  datatype Books = Books(refs: map<nat, nat>, destroyed: multiset<nat>, fault: bool)

  datatype Phase = Idle | Broadcasting(ac: nat, idx: nat, dispatched: bool)

  /** `next` numbers the commands made; `leaked` are references dropped with a deleted analyzer. */
  datatype State = State(
    pigs: seq<Pig>, orphans: seq<nat>, books: Books, swine: int, phase: Phase, next: nat, leaked: multiset<nat>)

  // ----- reference counts -----

  function Get(b: Books, c: nat): Books {
    if c in b.refs then b.(refs := b.refs[c := b.refs[c] + 1]) else b.(fault := true)
  }

  function Destroy(b: Books, c: nat): Books {
    if c in b.refs then Books(b.refs - {c}, b.destroyed + multiset{c}, b.fault) else b.(fault := true)
  }

  /** Giving up a reference; the last one destroys the command. */
  function Put(b: Books, c: nat): Books {
    if c !in b.refs || b.refs[c] == 0 then b.(fault := true)
    else if b.refs[c] == 1 then Destroy(b, c)
    else b.(refs := b.refs[c := b.refs[c] - 1])
  }

  function PutAll(b: Books, cs: seq<nat>): Books
    decreases |cs|
  {
    if cs == [] then b else PutAll(Put(b, cs[0]), cs[1..])
  }

  /** Using a command: it must not have been destroyed. */
  function Touch(b: Books, c: nat): Books {
    if c in b.refs then b else b.(fault := true)
  }

  // ----- steps -----

  datatype Step =
    | Prep(ok: bool) | Start(i: nat) | NewBroadcast | Queue | EndBroadcast | Unicast(i: nat)
    | Take(i: nat) | Done(i: nat) | Defer(i: nat) | Retry(i: nat, k: nat, complete: bool) | Exit(i: nat)
    | Reap(i: nat) | ReapOrphan | Stop(i: nat)

  predicate HasAnalyzer(p: Pig) {
    p.analyzer.Some?
  }

  /** Commands can be queued to a pig with an analyzer and a thread. */
  predicate Ready(p: Pig) {
    p.analyzer.Some? && p.thread != NoThread
  }

  function LazyPig(pigs: seq<Pig>, from: nat): (r: nat)
    requires from <= |pigs|
    ensures from <= r <= |pigs|
    ensures r < |pigs| ==> !HasAnalyzer(pigs[r])
    ensures forall i :: from <= i < r ==> HasAnalyzer(pigs[i])
    decreases |pigs| - from
  {
    if from == |pigs| then from else if !HasAnalyzer(pigs[from]) then from else LazyPig(pigs, from + 1)
  }

  predicate AnalyzerThread(p: Pig) {
    p.analyzer.Some? && p.thread == Running
  }

  predicate MainIdle(st: State, i: nat) {
    st.phase.Idle? && i < |st.pigs|
  }

  predicate Enabled(st: State, step: Step) {
    match step
    case Prep(_) => st.phase.Idle? && st.swine < |st.pigs|
    case Start(i) => MainIdle(st, i) && HasAnalyzer(st.pigs[i]) && st.pigs[i].thread == NoThread
    case NewBroadcast => st.phase.Idle?
    case Queue => st.phase.Broadcasting? && st.phase.idx < |st.pigs|
    case EndBroadcast => st.phase.Broadcasting? && st.phase.idx == |st.pigs|
    case Unicast(i) => MainIdle(st, i)
    case Take(i) => i < |st.pigs| && CanTake(st.pigs[i])
    case Done(i) => i < |st.pigs| && HoldsOne(st.pigs[i])
    case Defer(i) => i < |st.pigs| && HoldsOne(st.pigs[i])
    case Retry(i, k, _) => i < |st.pigs| && CanRetry(st.pigs[i], k)
    case Exit(i) => i < |st.pigs| && AnalyzerThread(st.pigs[i]) && st.pigs[i].analyzer.value.hand.None?
    case Reap(i) => MainIdle(st, i) && HasAnalyzer(st.pigs[i]) && st.pigs[i].analyzer.value.completed != []
    case ReapOrphan => st.phase.Idle? && st.orphans != []
    case Stop(i) => MainIdle(st, i) && HasAnalyzer(st.pigs[i]) && st.pigs[i].thread == Exited
  }

  predicate CanTake(p: Pig) {
    AnalyzerThread(p) && p.analyzer.value.hand.None? && p.analyzer.value.pending != []
  }

  predicate HoldsOne(p: Pig) {
    AnalyzerThread(p) && p.analyzer.value.hand.Some?
  }

  predicate CanRetry(p: Pig, k: nat) {
    AnalyzerThread(p) && p.analyzer.value.hand.None? && k < |p.analyzer.value.uncompleted|
  }

  function WithWork(p: Pig, w: Work): Pig {
    p.(analyzer := Some(w))
  }

  function Queued(p: Pig, c: nat): Pig
    requires Ready(p)
  {
    WithWork(p, p.analyzer.value.(pending := p.analyzer.value.pending + [c]))
  }

  function Taken(p: Pig): Pig
    requires CanTake(p)
  {
    var w := p.analyzer.value;
    WithWork(p, w.(pending := w.pending[1..], hand := Some(w.pending[0])))
  }

  /** The command in hand was executed and is complete, or has to be tried again. */
  function Finished(p: Pig, complete: bool): Pig
    requires HoldsOne(p)
  {
    var w := p.analyzer.value;
    WithWork(p, if complete then w.(hand := None, completed := w.completed + [w.hand.value])
                else w.(hand := None, uncompleted := w.uncompleted + [w.hand.value]))
  }

  /** An uncompleted command was executed again: it is complete now, or stays where it is. */
  function Retried(p: Pig, k: nat, complete: bool): Pig
    requires CanRetry(p, k)
  {
    var w := p.analyzer.value;
    if !complete then p
    else WithWork(p, w.(uncompleted := w.uncompleted[..k] + w.uncompleted[k + 1..], completed := w.completed + [w.uncompleted[k]]))
  }

  function Reaped(p: Pig): Pig
    requires HasAnalyzer(p) && p.analyzer.value.completed != []
  {
    var w := p.analyzer.value;
    WithWork(p, w.(completed := w.completed[1..]))
  }

  function Next(st: State, step: Step): State
    requires Enabled(st, step)
  {
    match step
    case Prep(ok) =>
      var i := LazyPig(st.pigs, 0);
      if i == |st.pigs| then st.(books := st.books.(fault := true))
      else if !ok then st
      else st.(pigs := st.pigs[i := Pig(Some(Work([], None, [], [])), NoThread)], swine := st.swine + 1)
    case Start(i) => st.(pigs := st.pigs[i := st.pigs[i].(thread := Running)])
    case NewBroadcast => NewCommand(st).(phase := Broadcasting(st.next, 0, false))
    case Queue =>
      var c, i := st.phase.ac, st.phase.idx;
      if !Ready(st.pigs[i]) then st.(phase := st.phase.(idx := i + 1))
      else GiveTo(st, c, i).(phase := Broadcasting(c, i + 1, true))
    case EndBroadcast =>
      st.(phase := Idle, orphans := if st.phase.dispatched then st.orphans else st.orphans + [st.phase.ac])
    case Unicast(i) =>
      if Ready(st.pigs[i]) then GiveTo(NewCommand(st), st.next, i)
      else NewCommand(st).(orphans := st.orphans + [st.next])
    case Take(i) => st.(pigs := st.pigs[i := Taken(st.pigs[i])])
    case Done(i) =>
      st.(pigs := st.pigs[i := Finished(st.pigs[i], true)], books := Touch(st.books, st.pigs[i].analyzer.value.hand.value))
    case Defer(i) =>
      st.(pigs := st.pigs[i := Finished(st.pigs[i], false)], books := Touch(st.books, st.pigs[i].analyzer.value.hand.value))
    case Retry(i, k, complete) =>
      st.(pigs := st.pigs[i := Retried(st.pigs[i], k, complete)], books := Touch(st.books, st.pigs[i].analyzer.value.uncompleted[k]))
    case Exit(i) => st.(pigs := st.pigs[i := st.pigs[i].(thread := Exited)])
    case Reap(i) =>
      st.(pigs := st.pigs[i := Reaped(st.pigs[i])], books := Put(st.books, st.pigs[i].analyzer.value.completed[0]))
    case ReapOrphan => st.(orphans := st.orphans[1..], books := Destroy(st.books, st.orphans[0]))
    case Stop(i) => Stopped(st, i)
  }

  function NewCommand(st: State): State {
    st.(next := st.next + 1, books := st.books.(refs := st.books.refs[st.next := 0]))
  }

  function GiveTo(st: State, c: nat, i: nat): State
    requires i < |st.pigs| && Ready(st.pigs[i])
  {
    st.(pigs := st.pigs[i := Queued(st.pigs[i], c)], books := Get(st.books, c))
  }

  /** The thread is joined, completed and pending commands are reaped, the analyzer is deleted.
      The uncompleted commands are not reaped: their references are lost. */
  function Stopped(st: State, i: nat): State
    requires i < |st.pigs| && HasAnalyzer(st.pigs[i])
  {
    var w := st.pigs[i].analyzer.value;
    var b := PutAll(PutAll(st.books, w.completed), w.pending);
    st.(pigs := st.pigs[i := Pig(None, NoThread)],
        books := b.(fault := b.fault || st.swine == 0),
        swine := st.swine - 1,
        leaked := st.leaked + multiset(w.uncompleted))
  }

  predicate Possible(st: State, steps: seq<Step>)
    decreases |steps|
  {
    steps == [] || (Enabled(st, steps[0]) && Possible(Next(st, steps[0]), steps[1..]))
  }

  function After(st: State, steps: seq<Step>): State
    requires Possible(st, steps)
    decreases |steps|
  {
    if steps == [] then st else After(Next(st, steps[0]), steps[1..])
  }

  // ----- who holds a reference -----

  function HeldBy(p: Pig): multiset<nat> {
    if p.analyzer.None? then multiset{}
    else
      var w := p.analyzer.value;
      multiset(w.pending) + (if w.hand.Some? then multiset{w.hand.value} else multiset{})
      + multiset(w.uncompleted) + multiset(w.completed)
  }

  function Held(pigs: seq<Pig>): multiset<nat> {
    if pigs == [] then multiset{} else HeldBy(pigs[0]) + Held(pigs[1..])
  }

  function Analyzers(pigs: seq<Pig>): nat {
    if pigs == [] then 0 else (if HasAnalyzer(pigs[0]) then 1 else 0) + Analyzers(pigs[1..])
  }

  lemma SwapOuter(a: multiset<nat>, b: multiset<nat>, c: multiset<nat>)
    ensures a + b + c == c + b + a
  {
  }

  lemma ChangeBehind(h: multiset<nat>, x': multiset<nat>, d: multiset<nat>, x: multiset<nat>, e: multiset<nat>)
    requires x' + d == x + e
    ensures h + x' + d == h + x + e
  {
    assert h + x' + d == h + (x' + d) && h + x + e == h + (x + e);
  }

  /** What a change of one holder does to all that is held, and to what is owed with it. */
  lemma ChangeBy(x': multiset<nat>, d: multiset<nat>, x: multiset<nat>, e: multiset<nat>,
                 lost: multiset<nat>, more: multiset<nat>, leaked: multiset<nat>, out: multiset<nat>)
    requires x' + d == x + e && d + more == e + lost + out
    ensures x' + (leaked + lost) + out == x + leaked + more
  {
    forall c: nat ensures (x' + (leaked + lost) + out)[c] == (x + leaked + more)[c] {
      assert (x' + d)[c] == (x + e)[c] && (d + more)[c] == (e + lost + out)[c];
    }
  }

  lemma TakeOff(a: multiset<nat>, out: multiset<nat>, b: multiset<nat>)
    requires a + out == b
    ensures a == b - out && out <= b
  {
    assert forall c: nat :: (a + out)[c] == b[c];
  }

  lemma {:induction false} HeldChange(pigs: seq<Pig>, i: nat, p: Pig)
    requires i < |pigs|
    ensures Held(pigs[i := p]) + HeldBy(pigs[i]) == Held(pigs) + HeldBy(p)
    ensures Analyzers(pigs[i := p]) + (if HasAnalyzer(pigs[i]) then 1 else 0)
         == Analyzers(pigs) + (if HasAnalyzer(p) then 1 else 0)
  {
    hide HeldBy;
    if i == 0 {
      assert pigs[i := p][1..] == pigs[1..];
      SwapOuter(HeldBy(p), Held(pigs[1..]), HeldBy(pigs[0]));
    } else {
      HeldChange(pigs[1..], i - 1, p);
      assert pigs[i := p][1..] == pigs[1..][i - 1 := p];
      ChangeBehind(HeldBy(pigs[0]), Held(pigs[1..][i - 1 := p]), HeldBy(pigs[i]), Held(pigs[1..]), HeldBy(p));
    }
  }

  lemma {:induction false} AnalyzersAll(pigs: seq<Pig>)
    ensures Analyzers(pigs) <= |pigs|
    ensures Analyzers(pigs) == |pigs| <==> forall i :: 0 <= i < |pigs| ==> HasAnalyzer(pigs[i])
  {
    if pigs != [] {
      AnalyzersAll(pigs[1..]);
      assert forall i :: 0 < i < |pigs| ==> pigs[i] == pigs[1..][i - 1];
    }
  }

  lemma {:induction false} HeldContains(pigs: seq<Pig>, i: nat)
    requires i < |pigs|
    ensures HeldBy(pigs[i]) <= Held(pigs)
    ensures HasAnalyzer(pigs[i]) ==> Analyzers(pigs) > 0
  {
    hide HeldBy;
    if i > 0 {
      HeldContains(pigs[1..], i - 1);
    }
  }

  // ----- the invariant -----

  /** Every command made is either alive, with as many references as are owed for it, or has been
      destroyed once. */
  ghost predicate Balanced(b: Books, owed: multiset<nat>, next: nat) {
    && !b.fault
    && (forall c :: c in b.refs ==> owed[c] == b.refs[c] && c < next && b.destroyed[c] == 0)
    && (forall c: nat :: c !in b.refs ==> owed[c] == 0 && b.destroyed[c] == if c < next then 1 else 0)
  }

  /** The commands alive without a reference: orphans, and one about to be broadcast. */
  ghost predicate Unreferenced(st: State) {
    && (forall i, j :: 0 <= i < j < |st.orphans| ==> st.orphans[i] != st.orphans[j])
    && (forall i :: 0 <= i < |st.orphans| ==> st.orphans[i] in st.books.refs && st.books.refs[st.orphans[i]] == 0)
    && (st.phase.Broadcasting? ==>
          && st.phase.idx <= |st.pigs| && st.phase.ac in st.books.refs && st.phase.ac !in st.orphans
          && (st.phase.dispatched <==> st.books.refs[st.phase.ac] > 0))
    && (forall c :: c in st.books.refs && st.books.refs[c] == 0 ==>
          c in st.orphans || (st.phase.Broadcasting? && c == st.phase.ac))
  }

  /** A thread belongs to an analyzer, and one that has exited holds no command. */
  ghost predicate Threads(pigs: seq<Pig>) {
    forall i :: 0 <= i < |pigs| ==> ThreadOk(pigs[i])
  }

  predicate ThreadOk(p: Pig) {
    if p.analyzer.None? then p.thread == NoThread
    else p.thread == Running || p.analyzer.value.hand.None?
  }

  ghost predicate Inv(st: State) {
    && Balanced(st.books, Held(st.pigs) + st.leaked, st.next)
    && Unreferenced(st)
    && st.swine == Analyzers(st.pigs)
    && Threads(st.pigs)
  }

  // ----- what each change of the books keeps -----

  lemma BalancedNew(b: Books, owed: multiset<nat>, next: nat)
    requires Balanced(b, owed, next)
    ensures next !in b.refs && Balanced(b.(refs := b.refs[next := 0]), owed, next + 1)
  {
  }

  lemma BalancedGet(b: Books, owed: multiset<nat>, next: nat, c: nat)
    requires Balanced(b, owed, next) && c in b.refs
    ensures Balanced(Get(b, c), owed + multiset{c}, next)
  {
  }

  lemma BalancedDestroy(b: Books, owed: multiset<nat>, next: nat, c: nat)
    requires Balanced(b, owed, next) && c in b.refs && b.refs[c] == 0
    ensures Balanced(Destroy(b, c), owed, next)
  {
  }

  ghost predicate SameZeros(b: Books, b': Books) {
    forall c: nat :: (c in b.refs && b.refs[c] == 0) <==> (c in b'.refs && b'.refs[c] == 0)
  }

  lemma BalancedPut(b: Books, owed: multiset<nat>, next: nat, c: nat)
    requires Balanced(b, owed, next) && owed[c] > 0
    ensures Balanced(Put(b, c), owed - multiset{c}, next) && SameZeros(b, Put(b, c))
  {
  }

  /** Reaping references one by one takes each off the books. */
  lemma {:induction false} BalancedPutAll(b: Books, owed: multiset<nat>, next: nat, cs: seq<nat>)
    requires Balanced(b, owed, next) && multiset(cs) <= owed
    ensures Balanced(PutAll(b, cs), owed - multiset(cs), next) && SameZeros(b, PutAll(b, cs))
    decreases |cs|
  {
    if cs != [] {
      var c, rest := cs[0], cs[1..];
      assert cs == [c] + rest;
      assert multiset(cs) == multiset{c} + multiset(rest);
      BalancedPut(b, owed, next, c);
      BalancedPutAll(Put(b, c), owed - multiset{c}, next, rest);
      hide Balanced, Put;
      assert owed - multiset{c} - multiset(rest) == owed - multiset(cs);
    } else {
      assert owed - multiset(cs) == owed;
    }
  }

  // ----- what each step keeps -----

  /** A reference that a worker holds belongs to a command that is alive. */
  lemma HeldIsAlive(st: State, i: nat, c: nat)
    requires Inv(st) && i < |st.pigs| && c in HeldBy(st.pigs[i])
    ensures c in st.books.refs && st.books.refs[c] > 0 && (Held(st.pigs) + st.leaked)[c] > 0
    ensures Touch(st.books, c) == st.books
  {
    hide HeldBy;
    HeldContains(st.pigs, i);
    assert Held(st.pigs)[c] > 0;
  }

  /** What is owed after one pig's references change: `more` come in, `out` are put, `lost` leak. */
  lemma OwedChange(st: State, i: nat, p: Pig, lost: multiset<nat>, more: multiset<nat>, out: multiset<nat>)
    requires i < |st.pigs| && HeldBy(st.pigs[i]) + more == HeldBy(p) + lost + out
    ensures Held(st.pigs[i := p]) + (st.leaked + lost) == Held(st.pigs) + st.leaked + more - out
    ensures out <= Held(st.pigs) + st.leaked + more
  {
    HeldChange(st.pigs, i, p);
    hide HeldBy, Held;
    ChangeBy(Held(st.pigs[i := p]), HeldBy(st.pigs[i]), Held(st.pigs), HeldBy(p), lost, more, st.leaked, out);
    TakeOff(Held(st.pigs[i := p]) + (st.leaked + lost), out, Held(st.pigs) + st.leaked + more);
  }

  lemma None3(a: multiset<nat>)
    ensures a + multiset{} == a && a - multiset{} == a
  {
  }

  lemma MoveKeeps(st: State, i: nat, p: Pig)
    requires Inv(st) && i < |st.pigs| && HasAnalyzer(st.pigs[i]) && HasAnalyzer(p) && HeldBy(p) == HeldBy(st.pigs[i]) && ThreadOk(p)
    ensures Inv(st.(pigs := st.pigs[i := p]))
  {
    hide HeldBy, Balanced, Held, Analyzers, Unreferenced;
    SameOwed(st, i, p);
    HeldChange(st.pigs, i, p);
    ThreadsChange(st.pigs, i, p);
    hide Threads;
    SameUnreferenced(st, st.(pigs := st.pigs[i := p]));
  }

  lemma SameUnreferenced(st: State, st': State)
    requires Unreferenced(st)
    requires st'.orphans == st.orphans && st'.books == st.books && st'.phase == st.phase && |st'.pigs| == |st.pigs|
    ensures Unreferenced(st')
  {
  }

  lemma SameOwed(st: State, i: nat, p: Pig)
    requires i < |st.pigs| && HeldBy(p) == HeldBy(st.pigs[i])
    ensures Held(st.pigs[i := p]) + st.leaked == Held(st.pigs) + st.leaked
  {
    hide HeldBy, Held;
    None3(HeldBy(p));
    None3(st.leaked);
    None3(Held(st.pigs) + st.leaked);
    OwedChange(st, i, p, multiset{}, multiset{}, multiset{});
  }

  lemma TakenHeld(p: Pig)
    requires CanTake(p)
    ensures HeldBy(Taken(p)) == HeldBy(p)
  {
    var w := p.analyzer.value;
    assert w.pending == [w.pending[0]] + w.pending[1..];
  }

  lemma FinishedHeld(p: Pig, complete: bool)
    requires HoldsOne(p)
    ensures HeldBy(Finished(p, complete)) == HeldBy(p) && p.analyzer.value.hand.value in HeldBy(p)
  {
  }

  lemma RetriedHeld(p: Pig, k: nat, complete: bool)
    requires CanRetry(p, k)
    ensures HeldBy(Retried(p, k, complete)) == HeldBy(p) && p.analyzer.value.uncompleted[k] in HeldBy(p)
  {
    var u := p.analyzer.value.uncompleted;
    assert u == u[..k] + [u[k]] + u[k + 1..];
  }

  /** The packet threads only move references between their own queues. */
  lemma AnalyzerStepKeeps(st: State, step: Step)
    requires Inv(st) && Enabled(st, step)
    requires step.Start? || step.Take? || step.Done? || step.Defer? || step.Retry? || step.Exit?
    ensures Inv(Next(st, step))
  {
    hide Inv, HeldBy;
    var i := step.i;
    var p := st.pigs[i];
    match step
    case Start(_) => MoveKeeps(st, i, p.(thread := Running)) by { StartHeld(p, Running); }
    case Exit(_) => MoveKeeps(st, i, p.(thread := Exited)) by { StartHeld(p, Exited); }
    case Take(_) =>
      TakenHeld(p);
      MoveKeeps(st, i, Taken(p));
    case Done(_) =>
      FinishedHeld(p, true);
      HeldIsAlive(st, i, p.analyzer.value.hand.value);
      MoveKeeps(st, i, Finished(p, true));
    case Defer(_) =>
      FinishedHeld(p, false);
      HeldIsAlive(st, i, p.analyzer.value.hand.value);
      MoveKeeps(st, i, Finished(p, false));
    case Retry(_, k, complete) =>
      RetriedHeld(p, k, complete);
      HeldIsAlive(st, i, p.analyzer.value.uncompleted[k]);
      MoveKeeps(st, i, Retried(p, k, complete));
  }

  lemma StartHeld(p: Pig, thread: Thread)
    ensures HeldBy(p.(thread := thread)) == HeldBy(p)
  {
  }

  lemma PrepKeeps(st: State, ok: bool)
    requires Inv(st) && Enabled(st, Prep(ok))
    ensures LazyPig(st.pigs, 0) < |st.pigs| && Inv(Next(st, Prep(ok)))
  {
    AnalyzersAll(st.pigs);
    hide Balanced, Held, Analyzers, Unreferenced;
    var i := LazyPig(st.pigs, 0);
    var p := Pig(Some(Work([], None, [], [])), NoThread);
    assert i < |st.pigs|;
    assert HeldBy(p) == HeldBy(st.pigs[i]);
    hide HeldBy;
    HeldChange(st.pigs, i, p);
    SameOwed(st, i, p);
    ThreadsChange(st.pigs, i, p);
    hide Threads, LazyPig;
    SameUnreferenced(st, Next(st, Prep(ok)));
  }

  lemma NewKeeps(st: State)
    requires Inv(st) && st.phase.Idle?
    ensures Inv(NewCommand(st).(phase := Broadcasting(st.next, 0, false)))
    ensures Inv(NewCommand(st).(orphans := st.orphans + [st.next]))
  {
    hide Balanced, Held, Analyzers, Threads, Unreferenced;
    BalancedNew(st.books, Held(st.pigs) + st.leaked, st.next);
    NewUnreferenced(st);
  }

  lemma NewUnreferenced(st: State)
    requires Unreferenced(st) && st.phase.Idle? && st.next !in st.books.refs
    ensures Unreferenced(NewCommand(st).(phase := Broadcasting(st.next, 0, false)))
    ensures Unreferenced(NewCommand(st).(orphans := st.orphans + [st.next]))
  {
    assert st.next !in st.orphans;
  }

  lemma ThreadsChange(pigs: seq<Pig>, i: nat, p: Pig)
    requires Threads(pigs) && i < |pigs| && ThreadOk(p)
    ensures Threads(pigs[i := p])
  {
  }

  lemma QueuedHeld(p: Pig, c: nat)
    requires Ready(p)
    ensures HeldBy(Queued(p, c)) == HeldBy(p) + multiset{c}
  {
  }

  lemma GiveOwed(st: State, c: nat, i: nat)
    requires i < |st.pigs| && Ready(st.pigs[i]) && Balanced(st.books, Held(st.pigs) + st.leaked, st.next) && c in st.books.refs
    ensures
      var st' := GiveTo(st, c, i);
      Balanced(st'.books, Held(st'.pigs) + st'.leaked, st'.next) && Analyzers(st'.pigs) == Analyzers(st.pigs)
  {
    var p := st.pigs[i];
    QueuedHeld(p, c);
    HeldChange(st.pigs, i, Queued(p, c));
    BalancedGet(st.books, Held(st.pigs) + st.leaked, st.next, c);
    hide HeldBy, Balanced, Held, Analyzers;
    None3(HeldBy(Queued(p, c)));
    None3(st.leaked);
    None3(Held(st.pigs) + st.leaked + multiset{c});
    OwedChange(st, i, Queued(p, c), multiset{}, multiset{c}, multiset{});
  }

  lemma GiveKeeps(st: State, i: nat)
    requires Inv(st) && st.phase.Broadcasting? && i < |st.pigs| && Ready(st.pigs[i]) && st.phase.idx == i
    ensures Inv(GiveTo(st, st.phase.ac, i).(phase := Broadcasting(st.phase.ac, i + 1, true)))
  {
    hide Balanced, Held, Analyzers, HeldBy;
    GiveOwed(st, st.phase.ac, i);
    ThreadsChange(st.pigs, i, Queued(st.pigs[i], st.phase.ac));
    hide Threads;
  }

  lemma BroadcastStepKeeps(st: State, step: Step)
    requires Inv(st) && Enabled(st, step) && (step.Queue? || step.EndBroadcast?)
    ensures Inv(Next(st, step))
  {
    hide Balanced, Held, Analyzers;
    if step.Queue? && Ready(st.pigs[st.phase.idx]) {
      GiveKeeps(st, st.phase.idx);
    }
  }

  /** Queuing to one pig is a broadcast to it alone. */
  lemma UnicastKeeps(st: State, i: nat)
    requires Inv(st) && Enabled(st, Unicast(i))
    ensures Inv(Next(st, Unicast(i)))
  {
    hide Balanced, Held, Analyzers, Threads;
    NewKeeps(st);
    if Ready(st.pigs[i]) {
      var st1 := NewCommand(st).(phase := Broadcasting(st.next, i, false));
      assert Inv(st1);
      GiveKeeps(st1, i);
      GivenOne(GiveTo(st1, st.next, i).(phase := Broadcasting(st.next, i + 1, true)));
    }
  }

  lemma GivenOne(st: State)
    requires Inv(st) && st.phase.Broadcasting? && st.phase.dispatched
    ensures Inv(st.(phase := Idle))
  {
    hide Balanced, Held, Analyzers, Threads;
  }

  lemma ReapedHeld(p: Pig)
    requires HasAnalyzer(p) && p.analyzer.value.completed != []
    ensures HeldBy(p) == HeldBy(Reaped(p)) + multiset{p.analyzer.value.completed[0]}
  {
    var w := p.analyzer.value;
    assert w.completed == [w.completed[0]] + w.completed[1..];
  }

  lemma ReapOwed(st: State, i: nat)
    requires Inv(st) && Enabled(st, Reap(i))
    ensures
      var st' := Next(st, Reap(i));
      && Balanced(st'.books, Held(st'.pigs) + st'.leaked, st'.next) && SameZeros(st.books, st'.books)
      && Analyzers(st'.pigs) == Analyzers(st.pigs)
  {
    var p := st.pigs[i];
    var c := p.analyzer.value.completed[0];
    ReapedHeld(p);
    HeldChange(st.pigs, i, Reaped(p));
    HeldIsAlive(st, i, c);
    hide HeldBy, Balanced, Held, Analyzers, Put, Unreferenced, Threads, SameZeros;
    BalancedPut(st.books, Held(st.pigs) + st.leaked, st.next, c);
    None3(HeldBy(p));
    None3(HeldBy(Reaped(p)));
    None3(st.leaked);
    None3(Held(st.pigs) + st.leaked);
    OwedChange(st, i, Reaped(p), multiset{}, multiset{}, multiset{c});
  }

  lemma ReapKeeps(st: State, i: nat)
    requires Inv(st) && Enabled(st, Reap(i))
    ensures Inv(Next(st, Reap(i)))
  {
    hide HeldBy, Balanced, Held, Analyzers, Put, Unreferenced;
    ReapOwed(st, i);
    ThreadsChange(st.pigs, i, Reaped(st.pigs[i]));
    hide Threads;
    ZerosKeep(st, Next(st, Reap(i)));
  }

  lemma ZerosKeep(st: State, st': State)
    requires Unreferenced(st) && st.phase.Idle? && SameZeros(st.books, st'.books)
    requires st'.orphans == st.orphans && st'.phase == st.phase
    ensures Unreferenced(st')
  {
  }

  lemma OrphanZeros(st: State)
    requires Unreferenced(st) && Enabled(st, ReapOrphan)
    ensures Unreferenced(Next(st, ReapOrphan))
  {
    var c, rest := st.orphans[0], st.orphans[1..];
    var refs := st.books.refs - {c};
    assert forall k :: 0 <= k < |rest| ==> rest[k] == st.orphans[k + 1];
    assert forall x :: x in refs && refs[x] == 0 ==> x in st.orphans && x != c;
    assert forall x :: x in st.orphans ==> x == c || x in rest;
  }

  lemma OrphanKeeps(st: State)
    requires Inv(st) && Enabled(st, ReapOrphan)
    ensures Inv(Next(st, ReapOrphan))
  {
    OrphanZeros(st);
    BalancedDestroy(st.books, Held(st.pigs) + st.leaked, st.next, st.orphans[0]);
    hide Balanced, Held, Analyzers, Threads, Unreferenced;
  }

  lemma StoppedHeld(p: Pig)
    requires HasAnalyzer(p) && p.analyzer.value.hand.None?
    ensures
      var w := p.analyzer.value;
      HeldBy(p) == multiset(w.completed) + multiset(w.pending) + multiset(w.uncompleted)
  {
  }

  lemma StopBooks(st: State, i: nat)
    requires Inv(st) && Enabled(st, Stop(i))
    ensures
      var w := st.pigs[i].analyzer.value;
      var b := PutAll(PutAll(st.books, w.completed), w.pending);
      && !b.fault && SameZeros(st.books, b)
      && Balanced(b, Held(st.pigs[i := Pig(None, NoThread)]) + (st.leaked + multiset(w.uncompleted)), st.next)
  {
    var w := st.pigs[i].analyzer.value;
    var owed := Held(st.pigs) + st.leaked;
    StopOwed(st, i);
    hide HeldBy, Balanced, Held, Analyzers, Unreferenced, Threads, SameZeros, PutAll;
    BalancedPutAll(st.books, owed, st.next, w.completed);
    var b := PutAll(st.books, w.completed);
    BalancedPutAll(b, owed - multiset(w.completed), st.next, w.pending);
    NoFault(PutAll(b, w.pending), owed - multiset(w.completed) - multiset(w.pending), st.next);
    ZerosTwice(st.books, b, PutAll(b, w.pending));
  }

  lemma ZerosTwice(a: Books, b: Books, c: Books)
    requires SameZeros(a, b) && SameZeros(b, c)
    ensures SameZeros(a, c)
  {
  }

  lemma StopKeeps(st: State, i: nat)
    requires Inv(st) && Enabled(st, Stop(i))
    ensures st.swine > 0 && Inv(Next(st, Stop(i)))
  {
    var gone := Pig(None, NoThread);
    hide HeldBy, Balanced, Held, Analyzers, Unreferenced, PutAll, SameZeros;
    StopBooks(st, i);
    HeldContains(st.pigs, i);
    HeldChange(st.pigs, i, gone);
    ThreadsChange(st.pigs, i, gone);
    hide Threads;
    ZerosKeep(st, Next(st, Stop(i)));
  }

  lemma StopOwed(st: State, i: nat)
    requires i < |st.pigs| && HasAnalyzer(st.pigs[i]) && st.pigs[i].analyzer.value.hand.None?
    ensures
      var w := st.pigs[i].analyzer.value;
      var owed := Held(st.pigs) + st.leaked;
      && multiset(w.completed) <= owed && multiset(w.pending) <= owed - multiset(w.completed)
      && Held(st.pigs[i := Pig(None, NoThread)]) + (st.leaked + multiset(w.uncompleted))
      == owed - multiset(w.completed) - multiset(w.pending)
  {
    var p, gone := st.pigs[i], Pig(None, NoThread);
    var w := p.analyzer.value;
    var owed := Held(st.pigs) + st.leaked;
    var out := multiset(w.completed) + multiset(w.pending);
    StoppedHeld(p);
    assert HeldBy(p) + multiset{} == HeldBy(gone) + multiset(w.uncompleted) + out;
    OwedChange(st, i, gone, multiset(w.uncompleted), multiset{}, out);
    hide HeldBy, Held;
    None3(owed);
    TwoParts(owed, multiset(w.completed), multiset(w.pending));
  }

  lemma TwoParts(owed: multiset<nat>, a: multiset<nat>, b: multiset<nat>)
    requires a + b <= owed
    ensures a <= owed && b <= owed - a && owed - (a + b) == owed - a - b
  {
    assert forall c: nat :: (a + b)[c] <= owed[c];
  }

  lemma NoFault(b: Books, owed: multiset<nat>, next: nat)
    requires Balanced(b, owed, next)
    ensures !b.fault && b.(fault := false) == b
  {
  }

  // ----- every run -----

  lemma StepKeeps(st: State, step: Step)
    requires Inv(st) && Enabled(st, step)
    ensures Inv(Next(st, step))
  {
    hide Inv;
    match step
    case Prep(ok) => PrepKeeps(st, ok);
    case NewBroadcast => NewKeeps(st);
    case Queue => BroadcastStepKeeps(st, step);
    case EndBroadcast => BroadcastStepKeeps(st, step);
    case Unicast(i) => UnicastKeeps(st, i);
    case Reap(i) => ReapKeeps(st, i);
    case ReapOrphan => OrphanKeeps(st);
    case Stop(i) => StopKeeps(st, i);
    case _ => AnalyzerStepKeeps(st, step);
  }

  lemma {:induction false} RunKeeps(st: State, steps: seq<Step>)
    requires Inv(st) && Possible(st, steps)
    ensures Inv(After(st, steps))
    decreases |steps|
  {
    hide Inv, Enabled, Next;
    if steps != [] {
      StepKeeps(st, steps[0]);
      RunKeeps(Next(st, steps[0]), steps[1..]);
    }
  }

  /** The main loop starts without analyzers, or in live mode with one for every pig. */
  function Initial(n: nat, live: bool): State {
    State(seq(n, _ => if live then Pig(Some(Work([], None, [], [])), NoThread) else Pig(None, NoThread)),
          [], Books(map[], multiset{}, false), if live then n else 0, Idle, 0, multiset{})
  }

  lemma {:induction false} NothingHeld(pigs: seq<Pig>, p: Pig)
    requires HeldBy(p) == multiset{} && forall i :: 0 <= i < |pigs| ==> pigs[i] == p
    ensures Held(pigs) == multiset{} && Analyzers(pigs) == if HasAnalyzer(p) then |pigs| else 0
  {
    if pigs != [] {
      NothingHeld(pigs[1..], p);
    }
  }

  lemma InitialInv(n: nat, live: bool)
    ensures Inv(Initial(n, live))
  {
    var st := Initial(n, live);
    var p := if live then Pig(Some(Work([], None, [], [])), NoThread) else Pig(None, NoThread);
    assert HeldBy(p) == multiset{};
    NothingHeld(st.pigs, p);
  }

  /** No destroyed command was touched and no count went below zero; a command has as many
      references as workers hold for it, plus those leaked; each command is destroyed at most once,
      never while a worker holds it; and `swine` is the number of pigs with an analyzer, so a free
      pig is found whenever one is asked for. */
  ghost predicate Sound(st: State) {
    && !st.books.fault
    && (forall c: nat :: Held(st.pigs)[c] + st.leaked[c] == if c in st.books.refs then st.books.refs[c] else 0)
    && (forall c: nat :: st.books.destroyed[c] <= 1)
    && (forall c: nat :: Held(st.pigs)[c] > 0 ==> c in st.books.refs && st.books.destroyed[c] == 0)
    && st.swine == Analyzers(st.pigs)
    && (st.swine < |st.pigs| ==> LazyPig(st.pigs, 0) < |st.pigs|)
  }

  lemma InvSound(st: State)
    requires Inv(st)
    ensures Sound(st)
  {
    AnalyzersAll(st.pigs);
    var owed := Held(st.pigs) + st.leaked;
    hide Held, Analyzers, Unreferenced, Threads;
    assert forall c: nat :: owed[c] == Held(st.pigs)[c] + st.leaked[c];
  }

  /** Every run, however the threads interleave, is sound. */
  lemma Safe(n: nat, live: bool, steps: seq<Step>)
    requires Possible(Initial(n, live), steps)
    ensures Sound(After(Initial(n, live), steps))
  {
    hide Initial, Possible, After, Inv, Sound;
    InitialInv(n, live);
    RunKeeps(Initial(n, live), steps);
    InvSound(After(Initial(n, live), steps));
  }

  // ----- leaks -----

  /** Every analyzer that is deleted has no uncompleted command. */
  predicate StopsClean(st: State, steps: seq<Step>)
    requires Possible(st, steps)
    decreases |steps|
  {
    steps != [] ==>
      && (steps[0].Stop? ==> st.pigs[steps[0].i].analyzer.value.uncompleted == [])
      && StopsClean(Next(st, steps[0]), steps[1..])
  }

  lemma LeakedNext(st: State, step: Step)
    requires Enabled(st, step)
    ensures Next(st, step).leaked == st.leaked + if step.Stop? then multiset(st.pigs[step.i].analyzer.value.uncompleted) else multiset{}
  {
  }

  lemma {:induction false} LeakedExactly(st: State, steps: seq<Step>)
    requires Possible(st, steps)
    ensures |After(st, steps).leaked| >= |st.leaked|
    ensures |After(st, steps).leaked| == |st.leaked| <==> StopsClean(st, steps)
    decreases |steps|
  {
    hide Next;
    if steps != [] {
      LeakedNext(st, steps[0]);
      LeakedExactly(Next(st, steps[0]), steps[1..]);
      if steps[0].Stop? {
        var u := st.pigs[steps[0].i].analyzer.value.uncompleted;
        assert |multiset(u)| == |u|;
      }
    }
  }

  ghost predicate Quiet(st: State) {
    st.phase.Idle? && st.orphans == [] && Held(st.pigs) == multiset{}
  }

  /** Once nothing is queued, every command made has been destroyed exactly once, if and only if no
      analyzer was deleted with uncompleted commands. */
  lemma AllDestroyed(n: nat, live: bool, steps: seq<Step>)
    requires Possible(Initial(n, live), steps) && Quiet(After(Initial(n, live), steps))
    ensures
      var st := After(Initial(n, live), steps);
      (forall c: nat :: c < st.next ==> st.books.destroyed[c] == 1) <==> StopsClean(Initial(n, live), steps)
  {
    var st := After(Initial(n, live), steps);
    InitialInv(n, live);
    RunKeeps(Initial(n, live), steps);
    LeakedExactly(Initial(n, live), steps);
    QuietBooks(st);
    hide After, Possible, Held, Analyzers, Inv, StopsClean;
    if st.leaked != multiset{} {
      var c :| c in st.leaked;
      assert c < st.next && st.books.destroyed[c] == 0;
    }
  }

  lemma QuietBooks(st: State)
    requires Inv(st) && Quiet(st)
    ensures forall c: nat :: c in st.books.refs <==> c in st.leaked
    ensures forall c: nat :: c in st.leaked ==> c < st.next && st.books.destroyed[c] == 0
    ensures forall c: nat :: c < st.next && c !in st.leaked ==> st.books.destroyed[c] == 1
  {
    assert Held(st.pigs) + st.leaked == st.leaked;
    hide Held, Analyzers;
  }

  lemma {:induction false} AfterMore(st: State, steps: seq<Step>, step: Step)
    requires Possible(st, steps) && Enabled(After(st, steps), step)
    ensures Possible(st, steps + [step]) && After(st, steps + [step]) == Next(After(st, steps), step)
    decreases |steps|
  {
    hide Enabled, Next;
    if steps == [] {
      assert [] + [step] == [step] && [step][1..] == [];
    } else {
      AfterMore(Next(st, steps[0]), steps[1..], step);
      assert (steps + [step])[1..] == steps[1..] + [step];
    }
  }

  /** A pig that took and deferred the first command. */
  lemma Deferring() returns (st: State)
    ensures
      var steps := [Start(0), Unicast(0), Take(0), Defer(0)];
      && Possible(Initial(1, true), steps) && st == After(Initial(1, true), steps)
    ensures st.pigs == [Pig(Some(Work([], None, [0], [])), Running)] && st.phase.Idle? && st.orphans == []
    ensures st.books == Books(map[0 := 1], multiset{}, false) && st.next == 1
  {
    var s0 := Initial(1, true);
    var s2 := Given();
    var w := s2.pigs[0].analyzer.value;
    hide Possible, After, Initial;
    var s3 := Next(s2, Take(0));
    assert s3.pigs[0] == Pig(Some(w.(pending := [], hand := Some(0))), Running) by { assert [0][1..] == []; }
    st := Next(s3, Defer(0));
    assert w.uncompleted + [0] == [0];
    AfterMore(s0, [Start(0), Unicast(0)], Take(0));
    var three := [Start(0), Unicast(0)] + [Take(0)];
    AfterMore(s0, three, Defer(0));
    assert three + [Defer(0)] == [Start(0), Unicast(0), Take(0), Defer(0)];
  }

  lemma Given() returns (st: State)
    ensures
      var steps := [Start(0), Unicast(0)];
      && Possible(Initial(1, true), steps) && st == After(Initial(1, true), steps)
    ensures st.pigs == [Pig(Some(Work([0], None, [], [])), Running)] && st.phase.Idle? && st.orphans == []
    ensures st.books == Books(map[0 := 1], multiset{}, false) && st.next == 1
  {
    var s0 := Initial(1, true);
    var w := Work([], None, [], []);
    assert s0.pigs == [Pig(Some(w), NoThread)];
    var s1 := Next(s0, Start(0));
    assert s1.pigs == [Pig(Some(w), Running)];
    st := Next(s1, Unicast(0));
    assert w.pending + [0] == [0];
    hide Enabled, Next;
    AfterMore(s0, [], Start(0));
    AfterMore(s0, [Start(0)], Unicast(0));
  }

  /** A command deferred by a worker that then exits is never destroyed. */
  lemma DeferredLeaks()
    ensures
      var steps := [Start(0), Unicast(0), Take(0), Defer(0), Exit(0), Stop(0)];
      var st := Initial(1, true);
      && Possible(st, steps) && Quiet(After(st, steps))
      && After(st, steps).next == 1 && After(st, steps).books.destroyed[0] == 0
  {
    var s4 := Deferring();
    hide Possible, After, Initial;
    var s5 := Next(s4, Exit(0));
    assert s5.pigs == [Pig(Some(Work([], None, [0], [])), Exited)];
    var s6 := Next(s5, Stop(0));
    assert s6.pigs == [Pig(None, NoThread)];
    assert Held(s6.pigs) == multiset{};
    var st := Initial(1, true);
    var four := [Start(0), Unicast(0), Take(0), Defer(0)];
    AfterMore(st, four, Exit(0));
    AfterMore(st, four + [Exit(0)], Stop(0));
    assert four + [Exit(0)] + [Stop(0)] == [Start(0), Unicast(0), Take(0), Defer(0), Exit(0), Stop(0)];
  }

  // ----- who gets a command, and in which order -----

  /** The pigs among the first `n` that have an analyzer and a thread. */
  ghost function Receivers(pigs: seq<Pig>, n: nat): set<nat>
    requires n <= |pigs|
  {
    set i | 0 <= i < n && pigs[i].analyzer.Some? && pigs[i].thread != NoThread
  }

  /** The pig with one more command at the end of its queue. */
  ghost predicate GotLast(was: Pig, now: Pig, c: nat) {
    && was.analyzer.Some? && now.analyzer.Some? && now.thread == was.thread
    && var w, w' := was.analyzer.value, now.analyzer.value;
    && w'.pending == w.pending + [c] && w'.hand == w.hand && w'.uncompleted == w.uncompleted && w'.completed == w.completed
  }

  /** Of the first `n` pigs exactly those with an analyzer and a thread have got command `c`, each at
      the end of its queue; no other pig has changed. */
  ghost predicate PigsGot(was: seq<Pig>, now: seq<Pig>, c: nat, n: nat) {
    && n <= |was| == |now|
    && forall i :: 0 <= i < |was| ==>
         if i in Receivers(was, n) then GotLast(was[i], now[i], c) else now[i] == was[i]
  }

  /** Command `c` was sent to the first `n` pigs: it has one reference for each pig that got it. */
  ghost predicate SentTo(was: State, now: State, c: nat, n: nat) {
    && PigsGot(was.pigs, now.pigs, c, n)
    && now.books == Books(was.books.refs[c := |Receivers(was.pigs, n)|], was.books.destroyed, was.books.fault)
    && now.orphans == was.orphans && now.swine == was.swine && now.leaked == was.leaked && now.next == was.next + 1
  }

  lemma SentNone(was: State, now: State)
    requires now == NewCommand(was).(phase := now.phase)
    ensures SentTo(was, now, was.next, 0) && Receivers(was.pigs, 0) == {}
  {
    assert Receivers(was.pigs, 0) == {};
  }

  lemma ReceiversStep(pigs: seq<Pig>, n: nat)
    requires n < |pigs|
    ensures Receivers(pigs, n + 1) == Receivers(pigs, n) + (if Ready(pigs[n]) then {n} else {})
    ensures |Receivers(pigs, n + 1)| == |Receivers(pigs, n)| + (if Ready(pigs[n]) then 1 else 0)
  {
    assert Receivers(pigs, n + 1) == Receivers(pigs, n) + (if Ready(pigs[n]) then {n} else {});
  }

  lemma PigsGotNext(was: seq<Pig>, now: seq<Pig>, c: nat, n: nat)
    requires PigsGot(was, now, c, n) && n < |was|
    ensures now[n] == was[n]
    ensures Ready(was[n]) ==> PigsGot(was, now[n := Queued(was[n], c)], c, n + 1)
    ensures !Ready(was[n]) ==> PigsGot(was, now, c, n + 1)
  {
    ReceiversStep(was, n);
    assert n !in Receivers(was, n);
    if Ready(was[n]) {
      assert GotLast(was[n], Queued(was[n], c), c);
    }
    hide GotLast;
  }

  lemma SentNext(was: State, now: State, c: nat, n: nat)
    requires SentTo(was, now, c, n) && n < |was.pigs|
    ensures n < |now.pigs| && now.pigs[n] == was.pigs[n]
    ensures Ready(was.pigs[n]) ==> SentTo(was, GiveTo(now, c, n), c, n + 1)
    ensures !Ready(was.pigs[n]) ==> SentTo(was, now, c, n + 1)
  {
    assert |now.pigs| == |was.pigs|;
    hide PigsGot;
    ReceiversStep(was.pigs, n);
    PigsGotNext(was.pigs, now.pigs, c, n);
    hide Receivers, Queued, Ready;
  }

  lemma SentPhase(was: State, now: State, c: nat, n: nat, phase: Phase)
    requires SentTo(was, now, c, n)
    ensures SentTo(was, now.(phase := phase), c, n)
  {
    hide Receivers, GotLast;
  }

  /** The command a step queues to pig `i`, if it does. */
  function QueuedTo(st: State, step: Step, i: nat): seq<nat>
    requires i < |st.pigs| && Enabled(st, step)
  {
    var listens := st.pigs[i].analyzer.Some? && st.pigs[i].thread != NoThread;
    if listens && step.Queue? && st.phase.idx == i then [st.phase.ac]
    else if listens && step == Unicast(i) then [st.next]
    else []
  }

  /** The command that pig `i`'s analyzer has in hand after it took one. */
  function TakenBy(st: State, step: Step, i: nat): seq<nat>
    requires i < |st.pigs| && Enabled(st, step)
  {
    if step != Take(i) then []
    else
      var p := Next(st, step).pigs[i];
      if p.analyzer.Some? && p.analyzer.value.hand.Some? then [p.analyzer.value.hand.value] else []
  }

  lemma {:induction false} SamePigs(st: State, step: Step)
    requires Enabled(st, step)
    ensures |Next(st, step).pigs| == |st.pigs|
  {
    hide PutAll;
  }

  function AllQueued(st: State, steps: seq<Step>, i: nat): seq<nat>
    requires Possible(st, steps) && i < |st.pigs|
    decreases |steps|
  {
    if steps == [] then []
    else
      SamePigs(st, steps[0]);
      QueuedTo(st, steps[0], i) + AllQueued(Next(st, steps[0]), steps[1..], i)
  }

  function AllTaken(st: State, steps: seq<Step>, i: nat): seq<nat>
    requires Possible(st, steps) && i < |st.pigs|
    decreases |steps|
  {
    if steps == [] then []
    else
      SamePigs(st, steps[0]);
      TakenBy(st, steps[0], i) + AllTaken(Next(st, steps[0]), steps[1..], i)
  }

  ghost predicate InOrder(p: Pig, queued: seq<nat>, taken: seq<nat>, q: Pig) {
    p.analyzer.Some? && q.analyzer.Some? && p.analyzer.value.pending + queued == taken + q.analyzer.value.pending
  }

  lemma TakeInOrder(p: Pig)
    requires CanTake(p)
    ensures Taken(p).analyzer.Some? && Taken(p).analyzer.value.hand.Some?
    ensures InOrder(p, [], [Taken(p).analyzer.value.hand.value], Taken(p))
  {
  }

  lemma OthersInOrder(p: Pig)
    requires HasAnalyzer(p)
    ensures InOrder(p, [], [], p)
    ensures forall t :: InOrder(p, [], [], p.(thread := t))
    ensures Ready(p) ==> forall c :: InOrder(p, [c], [], Queued(p, c))
    ensures HoldsOne(p) ==> InOrder(p, [], [], Finished(p, true)) && InOrder(p, [], [], Finished(p, false))
    ensures forall k, complete :: CanRetry(p, k) ==> InOrder(p, [], [], Retried(p, k, complete))
    ensures p.analyzer.value.completed != [] ==> InOrder(p, [], [], Reaped(p))
  {
  }

  lemma FifoStep(st: State, step: Step, i: nat)
    requires Enabled(st, step) && i < |st.pigs| && HasAnalyzer(st.pigs[i]) && step != Stop(i)
    ensures
      && i < |Next(st, step).pigs|
      && InOrder(st.pigs[i], QueuedTo(st, step, i), TakenBy(st, step, i), Next(st, step).pigs[i])
      && (step == Take(i) ==> TakenBy(st, step, i) != [])
  {
    SamePigs(st, step);
    OthersInOrder(st.pigs[i]);
    if step == Take(i) {
      TakeInOrder(st.pigs[i]);
    }
    hide PutAll, Put, Destroy, Get, Touch, InOrder, Taken, Finished, Retried, Reaped, Queued;
  }

  lemma AnalyzerShows(p: Pig)
    ensures HasAnalyzer(p) <==> p.analyzer.Some?
  {
  }

  lemma Shuffle(a: seq<nat>, b: seq<nat>, c: seq<nat>, d: seq<nat>, e: seq<nat>, f: seq<nat>, g: seq<nat>)
    requires a + b == c + d && d + e == f + g
    ensures a + (b + e) == (c + f) + g
  {
    assert a + (b + e) == (a + b) + e == c + (d + e) == (c + f) + g;
  }

  /** Commands are taken in the order in which they were queued: as long as its analyzer is not
      stopped, what a pig had queued and what was queued to it since is what was taken, in this
      order, followed by what is still queued. */
  lemma {:induction false} FirstInFirstOut(st: State, steps: seq<Step>, i: nat)
    requires Possible(st, steps) && i < |st.pigs| && HasAnalyzer(st.pigs[i]) && Stop(i) !in steps
    ensures
      && i < |After(st, steps).pigs|
      && var end := After(st, steps).pigs[i];
      && end.analyzer.Some?
      && st.pigs[i].analyzer.value.pending + AllQueued(st, steps, i) == AllTaken(st, steps, i) + end.analyzer.value.pending
    decreases |steps|
  {
    if steps == [] {
    } else {
      FifoStep(st, steps[0], i);
      var next := Next(st, steps[0]);
      hide Next, Enabled, QueuedTo, TakenBy, HasAnalyzer;
      assert HasAnalyzer(next.pigs[i]) by { AnalyzerShows(next.pigs[i]); }
      FirstInFirstOut(next, steps[1..], i);
      Shuffle(st.pigs[i].analyzer.value.pending, QueuedTo(st, steps[0], i), TakenBy(st, steps[0], i),
              next.pigs[i].analyzer.value.pending, AllQueued(next, steps[1..], i),
              AllTaken(next, steps[1..], i), After(st, steps).pigs[i].analyzer.value.pending);
    }
  }

  // ----- the main thread's loops -----

  function Repeat(step: Step, k: nat): seq<Step> {
    if k == 0 then [] else Repeat(step, k - 1) + [step]
  }

  class Herd {
    var st: State

    constructor (n: nat, live: bool)
      ensures st == Initial(n, live)
    {
      st := Initial(n, live);
    }

    method GetLazyPig() returns (i: nat)
      requires Inv(st) && st.swine < |st.pigs|
      ensures i < |st.pigs| && !HasAnalyzer(st.pigs[i]) && i == LazyPig(st.pigs, 0)
    {
      AnalyzersAll(st.pigs);
      hide Balanced, Held, Analyzers, Unreferenced;
      i := 0;
      while HasAnalyzer(st.pigs[i])
        invariant i < |st.pigs| && LazyPig(st.pigs, 0) == LazyPig(st.pigs, i)
        invariant forall k :: 0 <= k < i ==> HasAnalyzer(st.pigs[k])
        decreases |st.pigs| - i
      {
        i := i + 1;
      }
    }

    method QueueCommand(c: nat, i: nat, orphan: bool) returns (queued: bool)
      requires i < |st.pigs|
      modifies this
      ensures queued == Ready(old(st).pigs[i])
      ensures queued ==> st == GiveTo(old(st), c, i)
      ensures !queued ==> st == if orphan then old(st).(orphans := old(st).orphans + [c]) else old(st)
    {
      if !Ready(st.pigs[i]) {
        if orphan {
          st := st.(orphans := st.orphans + [c]);
        }
        return false;
      }
      st := st.(books := Get(st.books, c));
      st := st.(pigs := st.pigs[i := Queued(st.pigs[i], c)]);
      return true;
    }

    /** Without interference, a broadcast is its steps one after another, and reaches every pig that
        has an analyzer and a thread. */
    method BroadcastCommand() returns (c: nat)
      requires Inv(st) && st.phase.Idle?
      modifies this
      ensures c == old(st).next
      ensures
        var steps := [NewBroadcast] + Repeat(Queue, |old(st).pigs|);
        && Possible(old(st), steps + [EndBroadcast]) && st == After(old(st), steps + [EndBroadcast])
      ensures Inv(st) && st.phase.Idle? && c in st.books.refs && (c in st.orphans <==> st.books.refs[c] == 0)
      ensures
        var n := |old(st).pigs|;
        var none := Receivers(old(st).pigs, n) == {};
        SentTo(old(st), st.(orphans := old(st).orphans), c, n) && st.orphans == old(st).orphans + if none then [c] else []
    {
      hide Inv, After, Possible, Ready, Repeat, SentTo, Receivers;
      ghost var was := st;
      ghost var steps := [NewBroadcast];
      c := st.next;
      OneStep(was, NewBroadcast);
      st := NewCommand(st).(phase := Broadcasting(c, 0, false));
      StartRepeat(Queue);
      SentNone(was, st);
      var i, dispatched := 0, false;
      while i < |st.pigs|
        invariant |st.pigs| == |was.pigs| && i <= |st.pigs| && Inv(st)
        invariant st.phase == Broadcasting(c, i, dispatched)
        invariant SentTo(was, st, c, i) && (dispatched <==> Receivers(was.pigs, i) != {})
        invariant steps == [NewBroadcast] + Repeat(Queue, i) && Possible(was, steps) && st == After(was, steps)
      {
        AfterMore(was, steps, Queue);
        StepKeeps(st, Queue);
        MoreRepeat(NewBroadcast, Queue, i);
        steps := steps + [Queue];
        SentNext(was, st, c, i);
        ReceiversStep(was.pigs, i);
        var queued := QueueCommand(c, i, false);
        if queued {
          dispatched := true;
        }
        i := i + 1;
        SentPhase(was, st, c, i, Broadcasting(c, i, dispatched));
        st := st.(phase := Broadcasting(c, i, dispatched));
      }
      BroadcastEnd(st);
      SentPhase(was, st, c, i, Idle);
      assert st.(orphans := was.orphans) == st by { SentOrphans(was, st, c, i); }
      AfterMore(was, steps, EndBroadcast);
      StepKeeps(st, EndBroadcast);
      if !dispatched {
        st := st.(orphans := st.orphans + [c]);
      }
      st := st.(phase := Idle);
    }

    method ReapCommand(c: nat)
      modifies this
      ensures st == old(st).(books := Put(old(st).books, c))
    {
      var b := st.books;
      if c !in b.refs || b.refs[c] == 0 {
        b := b.(fault := true);
      } else {
        var left := b.refs[c] - 1;
        b := if left == 0 then Destroy(b, c) else b.(refs := b.refs[c := left]);
      }
      st := st.(books := b);
    }

    /** Without interference, all the completed commands of a pig are reaped. */
    method ReapCommands(i: nat)
      requires Inv(st) && st.phase.Idle? && i < |st.pigs|
      modifies this
      ensures
        var k := if HasAnalyzer(old(st).pigs[i]) then |old(st).pigs[i].analyzer.value.completed| else 0;
        Possible(old(st), Repeat(Reap(i), k)) && st == After(old(st), Repeat(Reap(i), k))
      ensures Inv(st) && |st.pigs| == |old(st).pigs| && st.phase.Idle?
      ensures HasAnalyzer(st.pigs[i]) ==> st.pigs[i].analyzer.value.completed == []
    {
      ghost var was := st;
      NoSteps(was);
      hide Inv, After, Possible, Put;
      if !HasAnalyzer(st.pigs[i]) { return; }
      ghost var all := st.pigs[i].analyzer.value.completed;
      ghost var k := 0;
      while true
        invariant k <= |all| && st.phase.Idle? && |st.pigs| == |was.pigs| && HasAnalyzer(st.pigs[i]) && Inv(st)
        invariant st.pigs[i].analyzer.value.completed == all[k..]
        invariant Possible(was, Repeat(Reap(i), k)) && st == After(was, Repeat(Reap(i), k))
        decreases |all| - k
      {
        var commandsToReap := |st.pigs[i].analyzer.value.completed|;
        if commandsToReap > 0 {
          AfterMore(was, Repeat(Reap(i), k), Reap(i));
          StepKeeps(st, Reap(i));
          var c := st.pigs[i].analyzer.value.completed[0];
          st := st.(pigs := st.pigs[i := Reaped(st.pigs[i])]);
          ReapCommand(c);
          k := k + 1;
        }
        if commandsToReap <= 1 { break; }
      }
    }

    method ReapOrphans()
      requires Inv(st) && st.phase.Idle?
      modifies this
      ensures
        var steps := Repeat(ReapOrphan, |old(st).orphans|);
        Possible(old(st), steps) && st == After(old(st), steps)
      ensures Inv(st) && st.orphans == []
    {
      ghost var was := st;
      NoSteps(was);
      hide Inv, After, Possible;
      ghost var k := 0;
      while st.orphans != []
        invariant k <= |was.orphans| && st.phase.Idle? && Inv(st) && st.orphans == was.orphans[k..]
        invariant Possible(was, Repeat(ReapOrphan, k)) && st == After(was, Repeat(ReapOrphan, k))
        decreases |st.orphans|
      {
        AfterMore(was, Repeat(ReapOrphan, k), ReapOrphan);
        StepKeeps(st, ReapOrphan);
        var c := st.orphans[0];
        st := st.(orphans := st.orphans[1..]);
        st := st.(books := Destroy(st.books, c));
        k := k + 1;
      }
    }

    /** The thread has been joined: completed commands, then pending ones, are reaped in order. */
    method StopPig(i: nat)
      requires Inv(st) && Enabled(st, Stop(i))
      modifies this
      ensures st == Next(old(st), Stop(i)) && Inv(st)
    {
      ghost var was := st;
      StepKeeps(was, Stop(i));
      StopKeeps(was, i);
      hide Inv;
      var w := st.pigs[i].analyzer.value;
      ReapQueue(w.completed);
      ReapQueue(w.pending);
      st := st.(pigs := st.pigs[i := Pig(None, NoThread)], swine := st.swine - 1, leaked := st.leaked + multiset(w.uncompleted));
    }

    method ReapQueue(queue: seq<nat>)
      modifies this
      ensures st == old(st).(books := PutAll(old(st).books, queue))
    {
      ghost var was := st;
      var k := 0;
      while k < |queue|
        invariant k <= |queue| && st == was.(books := st.books)
        invariant PutAll(st.books, queue[k..]) == PutAll(was.books, queue)
      {
        assert queue[k..][1..] == queue[k + 1..];
        ReapCommand(queue[k]);
        k := k + 1;
      }
      assert queue[k..] == [];
    }
  }

  lemma NoSteps(st: State)
    ensures Possible(st, []) && After(st, []) == st
  {
  }

  lemma OneStep(st: State, step: Step)
    requires Inv(st) && Enabled(st, step)
    ensures Possible(st, [step]) && After(st, [step]) == Next(st, step) && Inv(Next(st, step))
  {
    hide Inv, Enabled, Next;
    AfterMore(st, [], step);
    assert [] + [step] == [step];
    StepKeeps(st, step);
  }

  lemma StartRepeat(step: Step)
    ensures Repeat(step, 0) == []
  {
  }

  lemma MoreRepeat(first: Step, step: Step, k: nat)
    ensures [first] + Repeat(step, k) + [step] == [first] + Repeat(step, k + 1)
  {
  }

  lemma BroadcastEnd(st: State)
    requires Inv(st) && st.phase.Broadcasting? && st.phase.idx == |st.pigs|
    ensures
      var st' := Next(st, EndBroadcast);
      st.phase.ac in st'.books.refs && (st.phase.ac in st'.orphans <==> st'.books.refs[st.phase.ac] == 0)
  {
    hide Balanced, Held, Analyzers, Threads;
  }

  lemma SentOrphans(was: State, now: State, c: nat, n: nat)
    requires SentTo(was, now, c, n)
    ensures now.orphans == was.orphans
  {
    hide Receivers, GotLast;
  }
}
