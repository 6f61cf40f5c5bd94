/** The DAQ message pool: descriptors of one array, linked into a free list, handed out by receive
    and put back by finalize. A descriptor pointer is an index into the array, null is -1. */
module MsgPool {
  import opened Prelude

  datatype RecvStatus = OK | INTERRUPTED | NOBUF | EOF | ERROR

  const NULL: int := -1
  const VERDICTS: nat := 6
  const VERDICT_PASS: nat := 0

  /** A reader succeeds, is at its end, or fails. */
  type ReadStatus = s: RecvStatus | s == OK || s == EOF || s == ERROR witness OK

  /** What reading a message into a descriptor amounts to: a status and the bytes offered. */
  datatype ReadResult = ReadResult(status: ReadStatus, bytes: seq<Byte>)

  /** What happens outside during a receive: messages read, and interrupts from other threads. */
  datatype Source = Source(read: nat -> ReadResult, interrupt: nat -> bool)

  /** The i-th descriptor of a list, null past its end. */
  function At(list: seq<nat>, i: nat): int {
    if i < |list| then list[i] else NULL
  }

  /** `list` is the chain of `next` links from `head` to null. */
  ghost predicate Linked(next: seq<int>, head: int, list: seq<nat>) {
    && (forall i :: 0 <= i < |list| ==> list[i] < |next|)
    && head == At(list, 0)
    && (forall i :: 0 <= i < |list| ==> next[list[i]] == At(list, i + 1))
  }

  ghost predicate Distinct(list: seq<nat>) {
    forall i, j :: 0 <= i < j < |list| ==> list[i] != list[j]
  }

  /** Following the links from the head of a distinct chain never meets a descriptor twice, and
      the chain is the only one. */
  lemma {:induction false} ChainUnique(next: seq<int>, head: int, list: seq<nat>, list': seq<nat>)
    requires Linked(next, head, list) && Linked(next, head, list')
    ensures list == list'
    decreases |list|
  {
    if list == [] {
    } else {
      assert list'[0] == list[0];
      TailLinked(next, head, list);
      TailLinked(next, head, list');
      ChainUnique(next, next[list[0]], list[1..], list'[1..]);
      assert list == [list[0]] + list[1..] && list' == [list[0]] + list'[1..];
    }
  }

  lemma TailLinked(next: seq<int>, head: int, list: seq<nat>)
    requires Linked(next, head, list) && list != []
    ensures Linked(next, next[list[0]], list[1..])
  {
    var l := list[1..];
    forall i | 0 <= i < |l| ensures next[l[i]] == At(l, i + 1) {
      assert l[i] == list[i + 1] && At(l, i + 1) == At(list, i + 2);
    }
  }

  lemma PushLinked(next: seq<int>, head: int, list: seq<nat>, d: nat)
    requires Linked(next, head, list) && d < |next| && d !in list
    ensures Linked(next[d := head], d, [d] + list)
  {
    var l, n := [d] + list, next[d := head];
    forall i | 0 <= i < |l| ensures n[l[i]] == At(l, i + 1) {
      assert At(l, i + 1) == At(list, i);
      if i > 0 {
        assert l[i] == list[i - 1] && list[i - 1] in list;
      }
    }
    assert forall i :: 0 <= i < |l| ==> l[i] < |n|;
  }

  lemma PushDistinct(list: seq<nat>, d: nat)
    requires Distinct(list) && d !in list
    ensures Distinct([d] + list)
  {
  }

  lemma PopLinked(next: seq<int>, head: int, list: seq<nat>)
    requires Linked(next, head, list) && Distinct(list) && list != []
    ensures Linked(next[list[0] := NULL], next[list[0]], list[1..])
  {
    var l, n := list[1..], next[list[0] := NULL];
    TailLinked(next, head, list);
    forall i | 0 <= i < |l| ensures n[l[i]] == At(l, i + 1) {
      assert l[i] == list[i + 1] && l[i] != list[0] && At(l, i + 1) == At(list, i + 2);
    }
  }

  /** Every descriptor below `size` is free or outstanding, and never both. */
  ghost predicate Partition(free: seq<nat>, outstanding: set<nat>, size: nat) {
    && Distinct(free)
    && (forall d :: d in free || d in outstanding <==> 0 <= d < size)
    && (forall d :: d in free ==> d !in outstanding)
    && |free| + |outstanding| == size
  }

  lemma PartitionGrow(free: seq<nat>, outstanding: set<nat>, size: nat)
    requires Partition(free, outstanding, size)
    ensures size !in free && Partition([size] + free, outstanding, size + 1)
  {
    PushDistinct(free, size);
  }

  lemma PartitionTake(free: seq<nat>, outstanding: set<nat>, size: nat)
    requires Partition(free, outstanding, size) && free != []
    ensures free[0] < size && free[0] !in outstanding && Partition(free[1..], outstanding + {free[0]}, size)
  {
    var first, rest := free[0], free[1..];
    assert first in free;
    assert |outstanding + {first}| == |outstanding| + 1;
    DistinctTail(free);
    hide Distinct;
    forall d: nat ensures d in rest || d in outstanding + {first} <==> d < size {
      assert d in free <==> d == first || d in rest;
    }
    assert forall d :: d in rest ==> d in free && d != first;
  }

  lemma DistinctTail(list: seq<nat>)
    requires Distinct(list) && list != []
    ensures Distinct(list[1..]) && list[0] !in list[1..]
    ensures forall d :: d in list <==> d == list[0] || d in list[1..]
  {
    assert list == [list[0]] + list[1..];
    assert forall i :: 0 <= i < |list| - 1 ==> list[1..][i] == list[i + 1];
  }

  lemma PartitionPut(free: seq<nat>, outstanding: set<nat>, size: nat, d: nat)
    requires Partition(free, outstanding, size) && d in outstanding
    ensures d < size && d !in free && Partition([d] + free, outstanding - {d}, size)
  {
    PushDistinct(free, d);
  }

  function Sum(s: seq<nat>): nat {
    if s == [] then 0 else Sum(s[..|s| - 1]) + s[|s| - 1]
  }

  lemma {:induction false} SumBump(s: seq<nat>, k: nat)
    requires k < |s|
    ensures Sum(s[k := s[k] + 1]) == Sum(s) + 1
  {
    var t := s[k := s[k] + 1];
    if k == |s| - 1 {
      assert t[..|t| - 1] == s[..|s| - 1];
    } else {
      SumBump(s[..|s| - 1], k);
      assert t[..|t| - 1] == s[..|s| - 1][k := s[k] + 1];
    }
  }

  lemma {:induction false} SumZeros(n: nat)
    ensures Sum(seq(n, _ => 0)) == 0
  {
    if n > 0 {
      SumZeros(n - 1);
      assert seq(n, _ => 0)[..n - 1] == seq(n - 1, _ => 0);
    }
  }

  /** The descriptors below `size` are set up: the free list links those that are not outstanding;
      no buffer holds more than `snaplen` bytes; verdicts account for what came back. */
  ghost predicate PoolOk(snaplen: nat, next: seq<int>, data: seq<seq<Byte>>, freelist: int, size: nat,
                         verdicts: seq<nat>, free: seq<nat>, outstanding: set<nat>, delivered: nat) {
    && |next| == |data| && size <= |next|
    && Linked(next, freelist, free) && Partition(free, outstanding, size)
    && (forall d :: 0 <= d < |data| ==> |data[d]| <= snaplen)
    && |verdicts| == VERDICTS && Sum(verdicts) + |outstanding| == delivered
  }

  lemma OkEmpty(snaplen: nat, n: nat)
    ensures PoolOk(snaplen, seq(n, _ => NULL), seq(n, _ => []), NULL, 0, seq(VERDICTS, _ => 0), [], {}, 0)
  {
    SumZeros(VERDICTS);
  }

  lemma OkGrow(snaplen: nat, next: seq<int>, data: seq<seq<Byte>>, freelist: int, size: nat,
               verdicts: seq<nat>, free: seq<nat>, outstanding: set<nat>, delivered: nat)
    requires PoolOk(snaplen, next, data, freelist, size, verdicts, free, outstanding, delivered) && size < |next|
    ensures PoolOk(snaplen, next[size := freelist], data, size, size + 1, verdicts, [size] + free, outstanding, delivered)
  {
    PartitionGrow(free, outstanding, size);
    PushLinked(next, freelist, free, size);
    hide Linked, Partition, Sum;
  }

  lemma OkTake(snaplen: nat, next: seq<int>, data: seq<seq<Byte>>, freelist: int, size: nat,
               verdicts: seq<nat>, free: seq<nat>, outstanding: set<nat>, delivered: nat)
    requires PoolOk(snaplen, next, data, freelist, size, verdicts, free, outstanding, delivered)
    ensures |next| == |data| && (freelist == NULL <==> free == [])
    ensures free != [] ==>
      && freelist == free[0] && free[0] < size && free[0] < |next| && free[0] !in outstanding
      && PoolOk(snaplen, next[free[0] := NULL], data, next[free[0]], size, verdicts, free[1..], outstanding + {free[0]}, delivered + 1)
  {
    HeadOf(next, freelist, free);
    if free != [] {
      PartitionTake(free, outstanding, size);
      PopLinked(next, freelist, free);
      hide Linked, Partition, Sum;
    }
  }

  lemma OkPut(snaplen: nat, next: seq<int>, data: seq<seq<Byte>>, freelist: int, size: nat,
              verdicts: seq<nat>, free: seq<nat>, outstanding: set<nat>, delivered: nat, d: nat, v: nat)
    requires PoolOk(snaplen, next, data, freelist, size, verdicts, free, outstanding, delivered)
    requires d in outstanding && v < VERDICTS
    ensures d < size && d < |next| && |verdicts| == VERDICTS
    ensures PoolOk(snaplen, next[d := freelist], data, d, size, verdicts[v := verdicts[v] + 1], [d] + free, outstanding - {d}, delivered)
  {
    SumBump(verdicts, v);
    PartitionPut(free, outstanding, size, d);
    PushLinked(next, freelist, free, d);
    hide Linked, Partition, Sum;
  }

  function Stored(bytes: seq<Byte>, snaplen: nat): (r: seq<Byte>)
    ensures |r| <= snaplen && r <= bytes && (r == bytes || |r| == snaplen)
  {
    if |bytes| <= snaplen then bytes else bytes[..snaplen]
  }

  ghost predicate Below(list: seq<nat>, n: nat) {
    forall i :: 0 <= i < |list| ==> list[i] < n
  }

  /** The buffers after the k-th message handed out has been written to descriptor `msgs[k]`. */
  ghost function Filled(data: seq<seq<Byte>>, msgs: seq<nat>, src: Source, snaplen: nat): (r: seq<seq<Byte>>)
    requires Below(msgs, |data|)
    ensures |r| == |data|
    decreases |msgs|
  {
    if msgs == [] then data
    else
      var n := |msgs| - 1;
      Filled(data, msgs[..n], src, snaplen)[msgs[n] := Stored(src.read(n).bytes, snaplen)]
  }

  /** Each distinct descriptor handed out holds its own message. */
  lemma {:induction false} FilledAt(data: seq<seq<Byte>>, msgs: seq<nat>, src: Source, snaplen: nat, k: nat)
    requires Below(msgs, |data|) && Distinct(msgs) && k < |msgs|
    ensures Filled(data, msgs, src, snaplen)[msgs[k]] == Stored(src.read(k).bytes, snaplen)
    decreases |msgs|
  {
    hide Stored;
    var n := |msgs| - 1;
    if k < n {
      assert msgs[..n][k] == msgs[k] != msgs[n];
      FilledAt(data, msgs[..n], src, snaplen, k);
    }
  }

  /** No other buffer is touched. */
  lemma {:induction false} FilledOther(data: seq<seq<Byte>>, msgs: seq<nat>, src: Source, snaplen: nat, d: nat)
    requires Below(msgs, |data|) && d < |data| && d !in msgs
    ensures Filled(data, msgs, src, snaplen)[d] == data[d]
    decreases |msgs|
  {
    hide Stored;
    if msgs != [] {
      FilledOther(data, msgs[..|msgs| - 1], src, snaplen, d);
    }
  }

  lemma FilledNext(data: seq<seq<Byte>>, msgs: seq<nat>, src: Source, snaplen: nat, d: nat)
    requires Below(msgs, |data|) && d < |data|
    ensures Below(msgs + [d], |data|)
    ensures Filled(data, msgs + [d], src, snaplen)
         == Filled(data, msgs, src, snaplen)[d := Stored(src.read(|msgs|).bytes, snaplen)]
  {
    assert (msgs + [d])[..|msgs|] == msgs;
  }

  /** The parts of a pool that a receive moves. */
  datatype Books = Books(free: seq<nat>, outstanding: set<nat>, delivered: nat, data: seq<seq<Byte>>)

  /** Receiving `msgs` takes them off the front of the free list, in order, each into its own
      buffer, and counts each as delivered and outstanding. */
  ghost predicate Received(was: Books, msgs: seq<nat>, now: Books, src: Source, snaplen: nat) {
    && was.free == msgs + now.free
    && now.outstanding == was.outstanding + (set d | d in msgs)
    && (forall d :: d in msgs ==> d !in was.outstanding)
    && now.delivered == was.delivered + |msgs|
    && Below(msgs, |was.data|) && now.data == Filled(was.data, msgs, src, snaplen)
  }

  lemma ReceivedNone(was: Books, src: Source, snaplen: nat)
    ensures Received(was, [], was, src, snaplen)
  {
  }

  lemma TakeNext(msgs: seq<nat>, free: seq<nat>)
    requires free != []
    ensures msgs + free == (msgs + [free[0]]) + free[1..]
    ensures (set x | x in msgs + [free[0]]) == (set x | x in msgs) + {free[0]}
  {
  }

  lemma ReceivedNext(was: Books, msgs: seq<nat>, now: Books, src: Source, snaplen: nat)
    requires Received(was, msgs, now, src, snaplen)
    requires now.free != [] && now.free[0] < |was.data| && now.free[0] !in now.outstanding && |now.data| == |was.data|
    ensures
      var d := now.free[0];
      Received(was, msgs + [d], Books(now.free[1..], now.outstanding + {d}, now.delivered + 1,
                                      now.data[d := Stored(src.read(|msgs|).bytes, snaplen)]), src, snaplen)
  {
    var d := now.free[0];
    FilledNext(was.data, msgs, src, snaplen, d);
    hide Filled, Below, Stored;
    TakeNext(msgs, now.free);
  }

  /** The end of a receive: the messages handed out, and after a failed read what it wrote into the
      descriptor that is still free. */
  ghost predicate ReceiveDone(was: Books, msgs: seq<nat>, now: Books, status: RecvStatus, src: Source, snaplen: nat) {
    && Below(msgs, |was.data|)
    && var filled, last := Filled(was.data, msgs, src, snaplen), src.read(|msgs|);
    && Received(was, msgs, now.(data := filled), src, snaplen)
    && if status == EOF || status == ERROR
       then now.free != [] && now.free[0] < |filled| && last.status == status
            && now.data == filled[now.free[0] := Stored(last.bytes, snaplen)]
       else now.data == filled
  }

  lemma DoneWell(was: Books, msgs: seq<nat>, now: Books, status: RecvStatus, src: Source, snaplen: nat)
    requires Received(was, msgs, now, src, snaplen) && status != EOF && status != ERROR
    ensures ReceiveDone(was, msgs, now, status, src, snaplen)
  {
    hide Filled, Stored, Below;
    assert now.(data := now.data) == now;
  }

  lemma DoneFailed(was: Books, msgs: seq<nat>, now: Books, src: Source, snaplen: nat)
    requires Received(was, msgs, now, src, snaplen) && now.free != [] && now.free[0] < |now.data|
    ensures
      var last := src.read(|msgs|);
      last.status != OK ==>
        ReceiveDone(was, msgs, now.(data := now.data[now.free[0] := Stored(last.bytes, snaplen)]), last.status, src, snaplen)
  {
    hide Filled, Stored, Below;
    assert now.(data := now.data) == now;
  }

  datatype Op = Receive(maxRecv: nat, src: Source) | Finalize(desc: nat, verdict: nat)

  class MessagePool {
    const snaplen: nat
    // The descriptor array, field by field.
    var next: seq<int>
    var data: seq<seq<Byte>>
    // The pool and its counters.
    var freelist: int
    var size: nat
    var available: nat
    var verdicts: seq<nat>
    var interrupted: bool

    /** The free list's descriptors in order, and the descriptors handed out. */
    ghost var free: seq<nat>
    ghost var outstanding: set<nat>
    /** Messages handed out since the last reset of the statistics, plus those out at the reset. */
    ghost var delivered: nat

    ghost function Accounts(): Books
      reads this
    {
      Books(free, outstanding, delivered, data)
    }

    ghost predicate Shaped()
      reads this
    {
      PoolOk(snaplen, next, data, freelist, size, verdicts, free, outstanding, delivered)
    }

    ghost predicate Valid()
      reads this
    {
      Shaped() && size == |next| && available == |free|
    }

    constructor (snaplen: nat)
      ensures Shaped() && size == 0 && delivered == 0 && outstanding == {} && verdicts == seq(VERDICTS, _ => 0)
      ensures this.snaplen == snaplen
    {
      this.snaplen := snaplen;
      next, data, freelist, size, available, interrupted := seq(0, _ => NULL), seq(0, _ => []), NULL, 0, 0, false;
      verdicts := seq(VERDICTS, _ => 0);
      free, outstanding, delivered := [], {}, 0;
      new;
      OkEmpty(snaplen, 0);
    }

    /** Builds the pool; `allocFails(i)` is a failure to allocate the i-th buffer. A failed build
        has set up exactly the descriptors whose buffers were allocated. */
    method CreateMessagePool(n: nat, allocFails: nat -> bool) returns (ok: bool)
      requires Shaped() && size == 0 && outstanding == {} && delivered == 0 && verdicts == seq(VERDICTS, _ => 0)
      modifies this
      ensures Shaped() && outstanding == {} && delivered == 0
      ensures ok <==> forall i: nat :: i < n ==> !allocFails(i)
      ensures ok ==> Valid() && size == |free| == n
      ensures !ok ==> size < n && allocFails(size) && forall i: nat :: i < size ==> !allocFails(i)
    {
      hide PoolOk;
      OkEmpty(snaplen, n);
      next, data, freelist, free := seq(n, _ => NULL), seq(n, _ => []), NULL, [];
      while size < n
        invariant size <= n && |next| == n && |free| == size
        invariant Shaped() && outstanding == {} && delivered == 0
        invariant forall i: nat :: i < size ==> !allocFails(i)
      {
        if allocFails(size) { return false; }
        OkGrow(snaplen, next, data, freelist, size, verdicts, free, outstanding, delivered);
        next := next[size := freelist];
        freelist := size;
        free := [size] + free;
        size := size + 1;
      }
      available := size;
      ok := true;
    }

    /** Stores the bytes offered into a descriptor's buffer, up to `snaplen`. */
    method Fill(d: nat, bytes: seq<Byte>)
      requires Valid() && d < |data|
      modifies this`data
      ensures Valid()
      ensures data == old(data)[d := Stored(bytes, snaplen)]
    {
      hide Linked, Partition, Sum;
      var buffer: seq<Byte>, k := [], 0;
      while k < |bytes| && |buffer| < snaplen
        invariant k == |buffer| <= snaplen && k <= |bytes| && buffer == bytes[..k]
      {
        buffer := buffer + [bytes[k]];
        k := k + 1;
      }
      assert |bytes| <= snaplen ==> bytes[..k] == bytes;
      data := data[d := buffer];
    }

    /** Hands out up to `maxRecv` descriptors from the head of the free list. A read that fails may
        have written into the descriptor that stays at the head. */
    method MsgReceive(maxRecv: nat, src: Source) returns (msgs: seq<nat>, status: RecvStatus)
      requires Valid()
      modifies this
      ensures Valid() && size == old(size)
      ensures |msgs| <= maxRecv && verdicts == old(verdicts)
      ensures ReceiveDone(old(Accounts()), msgs, Accounts(), status, src, snaplen)
      ensures forall k :: 0 <= k < |msgs| ==> src.read(k).status == OK && !src.interrupt(k)
      ensures status == OK <==> |msgs| == maxRecv
      ensures status == INTERRUPTED ==> !interrupted && (old(interrupted) || src.interrupt(|msgs|))
      ensures status != INTERRUPTED ==> interrupted == old(interrupted)
      ensures old(interrupted) && maxRecv > 0 ==> status == INTERRUPTED && msgs == []
      ensures status == NOBUF ==> free == []
      ensures status == EOF || status == ERROR ==> !src.interrupt(|msgs|)
    {
      msgs, status := [], OK;
      ghost var was := Accounts();
      hide PoolOk, Received, ReceiveDone, Stored;
      ReceivedNone(was, src, snaplen);
      while |msgs| < maxRecv
        invariant Valid() && size == old(size) && verdicts == old(verdicts) && |data| == |old(data)|
        invariant |msgs| <= maxRecv && status == OK && interrupted == old(interrupted)
        invariant interrupted ==> msgs == []
        invariant forall k :: 0 <= k < |msgs| ==> src.read(k).status == OK && !src.interrupt(k)
        invariant Received(was, msgs, Accounts(), src, snaplen)
        decreases maxRecv - |msgs|
      {
        if interrupted || src.interrupt(|msgs|) {
          interrupted := false;
          status := INTERRUPTED;
          break;
        }
        OkTake(snaplen, next, data, freelist, size, verdicts, free, outstanding, delivered);
        var desc := freelist;
        if desc == NULL {
          status := NOBUF;
          break;
        }
        var got := src.read(|msgs|);
        ReceivedNext(was, msgs, Accounts(), src, snaplen);
        DoneFailed(was, msgs, Accounts(), src, snaplen);
        Fill(desc, got.bytes);
        status := got.status;
        if status != OK { return; }
        TakeFirst();
        msgs := msgs + [desc];
      }
      DoneWell(was, msgs, Accounts(), status, src, snaplen);
    }

    /** Unlinks the first free descriptor. */
    method TakeFirst()
      requires Valid() && freelist != NULL
      modifies this`next, this`freelist, this`available, this`free, this`outstanding, this`delivered
      ensures Valid() && delivered == old(delivered) + 1
      ensures old(free) != [] && old(freelist) == old(free[0]) && free == old(free)[1..]
      ensures old(free[0]) !in old(outstanding) && outstanding == old(outstanding) + {old(free[0])}
    {
      OkTake(snaplen, next, data, freelist, size, verdicts, free, outstanding, delivered);
      hide PoolOk;
      var desc := freelist;
      freelist := next[desc];
      next := next[desc := NULL];
      available := available - 1;
      outstanding, delivered, free := outstanding + {desc}, delivered + 1, free[1..];
    }

    /** Puts an outstanding descriptor back and counts the verdict; an unknown verdict counts as a
        pass. */
    method MsgFinalize(desc: nat, verdict: nat)
      requires Valid() && desc in outstanding
      modifies this
      ensures Valid() && size == old(size) && delivered == old(delivered)
      ensures free == [desc] + old(free) && outstanding == old(outstanding) - {desc}
      ensures |old(verdicts)| == VERDICTS
      ensures
        var v := if verdict >= VERDICTS then VERDICT_PASS else verdict;
        verdicts == old(verdicts)[v := old(verdicts)[v] + 1]
      ensures data == old(data)
    {
      hide PoolOk;
      var v := if verdict >= VERDICTS then VERDICT_PASS else verdict;
      OkPut(snaplen, next, data, freelist, size, verdicts, free, outstanding, delivered, desc, v);
      verdicts := verdicts[v := verdicts[v] + 1];
      next := next[desc := freelist];
      freelist := desc;
      available := available + 1;
      free, outstanding := [desc] + free, outstanding - {desc};
    }

    /** Any run of receives and finalizes, where only outstanding messages are finalized: the pool
        stays partitioned, and what was delivered is what came back plus what is out. */
    method Serve(ops: seq<Op>, held: set<nat>) returns (received: nat, finalized: nat)
      requires Valid() && held == outstanding
      modifies this
      ensures Valid() && size == old(size) && |free| + |outstanding| == size
      ensures Sum(verdicts) + |outstanding| == old(Sum(verdicts) + |outstanding|) + received
      ensures |outstanding| + finalized == old(|outstanding|) + received
    {
      Counts();
      hide PoolOk;
      received, finalized := 0, 0;
      var out := held;
      for i := 0 to |ops|
        invariant Valid() && size == old(size) && out == outstanding && delivered == old(delivered) + received
        invariant |outstanding| + finalized == old(|outstanding|) + received
      {
        Counts();
        match ops[i]
        case Receive(maxRecv, src) =>
          var msgs, status := MsgReceive(maxRecv, src);
          Counts();
          received := received + |msgs|;
          out := out + set d | d in msgs;
        case Finalize(desc, verdict) =>
          if desc in out {
            MsgFinalize(desc, verdict);
            finalized := finalized + 1;
            out := out - {desc};
          }
      }
      Counts();
    }

    lemma Counts()
      requires Valid()
      ensures |free| + |outstanding| == size && Sum(verdicts) + |outstanding| == delivered
    {
    }

    /** Resetting the statistics restarts the count at what is still out. */
    method ResetStats()
      requires Valid()
      modifies this`verdicts, this`delivered
      ensures Valid() && verdicts == seq(VERDICTS, _ => 0) && delivered == |outstanding|
    {
      SumZeros(VERDICTS);
      hide Linked, Partition;
      verdicts, delivered := seq(VERDICTS, _ => 0), |outstanding|;
    }
  }

  lemma HeadOf(next: seq<int>, head: int, list: seq<nat>)
    requires Linked(next, head, list)
    ensures head == NULL <==> list == []
    ensures list != [] ==> head == list[0] && list[0] < |next|
  {
  }
}
