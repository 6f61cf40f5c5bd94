/** The 16-bit Internet checksum over a vector of buffers.

    `InCksumVec` accumulates native-endian words into a 32-bit sum and folds it. The reference
    is the one's-complement sum of section 1 of RFC 1071, defined here by end-around-carry
    addition, one word at a time. */
module Checksum {
  import opened Prelude

  type Word = x: int | 0 <= x < 0x1_0000

  const TWO32: int := 0x1_0000_0000

  /** The byte order in which the host reads a 16-bit word from memory. */
  datatype Endian = Little | Big

  function WordOf(e: Endian, b0: Byte, b1: Byte): Word {
    match e
    case Little => b0 + 0x100 * b1
    case Big => 0x100 * b0 + b1
  }

  function FirstByte(e: Endian, w: Word): Byte {
    match e
    case Little => w % 0x100
    case Big => w / 0x100
  }

  function SecondByte(e: Endian, w: Word): Byte {
    match e
    case Little => w / 0x100
    case Big => w % 0x100
  }

  /** Adjacent bytes paired into words; a last odd byte is paired with zero. */
  function Words(e: Endian, s: seq<Byte>): seq<Word> {
    if |s| == 0 then []
    else if |s| == 1 then [WordOf(e, s[0], 0)]
    else [WordOf(e, s[0], s[1])] + Words(e, s[2..])
  }

  /** Section 1 of RFC 1071: addition with the carry brought around to the low bit. */
  function OnesAdd(x: Word, y: Word): Word {
    if x + y >= 0x1_0000 then x + y - 0xffff else x + y
  }

  function OnesSum(ws: seq<Word>): Word {
    if ws == [] then 0 else OnesAdd(ws[0], OnesSum(ws[1..]))
  }

  /** The reference: the one's complement of the one's-complement sum. */
  function Reference(e: Endian, s: seq<Byte>): Word {
    0xffff - OnesSum(Words(e, s))
  }

  // ----- what the code computes -----

  /** The plain integer sum of the words of one buffer. */
  function Sum(e: Endian, s: seq<Byte>): nat {
    if |s| == 0 then 0
    else if |s| == 1 then WordOf(e, s[0], 0)
    else WordOf(e, s[0], s[1]) + Sum(e, s[2..])
  }

  function VecSum(e: Endian, vec: seq<seq<Byte>>): nat {
    if vec == [] then 0 else Sum(e, vec[0]) + VecSum(e, vec[1..])
  }

  function Concat(vec: seq<seq<Byte>>): seq<Byte> {
    if vec == [] then [] else vec[0] + Concat(vec[1..])
  }

  /** The representative of `n` modulo 65535 that end-around carry leaves: zero only for zero. */
  function Folded(n: nat): Word {
    if n == 0 then 0 else (n - 1) % 0xffff + 1
  }

  /** The value `in_cksum_vec` returns, with the accumulator's 32-bit wrap-around. */
  function CksumVec(e: Endian, vec: seq<seq<Byte>>): Word {
    0xffff - Folded(VecSum(e, vec) % TWO32)
  }

  /** 32-bit unsigned addition of a word to the accumulator. */
  function AddWrapped(sum: int, w: Word): (r: int)
    requires 0 <= sum < TWO32
    ensures 0 <= r < TWO32 && (r == sum + w || r == sum + w - TWO32)
  {
    if sum + w >= TWO32 then sum + w - TWO32 else sum + w
  }

  method InCksumVec(e: Endian, vec: seq<seq<Byte>>) returns (r: Word)
    ensures r == CksumVec(e, vec)
  {
    var sum := 0;
    ghost var carries := 0;
    var k := 0;
    while k < |vec|
      invariant 0 <= k <= |vec|
      invariant 0 <= sum < TWO32
      invariant sum + TWO32 * carries + VecSum(e, vec[k..]) == VecSum(e, vec)
    {
      assert vec[k..][1..] == vec[k + 1..];
      ghost var wraps;
      sum, wraps := AddPiece(e, sum, vec[k]);
      carries := carries + wraps;
      k := k + 1;
    }
    Remainder(VecSum(e, vec), carries, sum);
    sum := Fold(sum);
    r := 0xffff - sum;
  }

  /** The inner loop: one buffer's words, and its left-over byte, into the accumulator. */
  method AddPiece(e: Endian, start: int, piece: seq<Byte>) returns (sum: int, ghost wraps: nat)
    requires 0 <= start < TWO32
    ensures 0 <= sum < TWO32
    ensures sum + TWO32 * wraps == start + Sum(e, piece)
  {
    sum, wraps := start, 0;
    var addr, len := 0, |piece|;
    while len > 1
      invariant 0 <= len && addr + len == |piece|
      invariant 0 <= sum < TWO32
      invariant sum + TWO32 * wraps + Sum(e, piece[addr..]) == start + Sum(e, piece)
    {
      assert piece[addr..][2..] == piece[addr + 2..];
      var w := WordOf(e, piece[addr], piece[addr + 1]);
      wraps := wraps + if sum + w >= TWO32 then 1 else 0;
      sum := AddWrapped(sum, w);
      addr, len := addr + 2, len - 2;
    }
    if len > 0 {
      var w := WordOf(e, piece[addr], 0);
      wraps := wraps + if sum + w >= TWO32 then 1 else 0;
      sum := AddWrapped(sum, w);
    }
  }

  /** The folding loop. */
  method Fold(start: int) returns (sum: Word)
    requires 0 <= start < TWO32
    ensures sum == Folded(start)
  {
    var n := start;
    while n / 0x1_0000 != 0
      invariant 0 <= n
      invariant Folded(n) == Folded(start)
      decreases n
    {
      FoldStep(n);
      n := n % 0x1_0000 + n / 0x1_0000;
    }
    sum := n;
  }

  lemma Remainder(n: int, q: int, r: int)
    requires n == r + TWO32 * q && 0 <= r < TWO32
    ensures n % TWO32 == r
  {
  }

  /** One turn of the fold loop shrinks the sum and keeps it modulo 65535, zero staying apart. */
  lemma FoldStep(n: nat)
    requires n >= 0x1_0000
    ensures n % 0x1_0000 + n / 0x1_0000 < n
    ensures (n % 0x1_0000 + n / 0x1_0000) % 0xffff == n % 0xffff
    ensures Folded(n % 0x1_0000 + n / 0x1_0000) == Folded(n)
  {
    var q, r := n / 0x1_0000, n % 0x1_0000;
    assert n == 0xffff * q + (q + r);
    FoldedCong(q + r, q);
  }

  lemma FoldedCong(n: nat, q: nat)
    requires n > 0
    ensures Folded(n + 0xffff * q) == Folded(n)
    ensures (n + 0xffff * q) % 0xffff == n % 0xffff
  {
  }

  // ----- agreement with the reference -----

  lemma {:induction false} OnesSumIsFoldedSum(e: Endian, s: seq<Byte>)
    ensures OnesSum(Words(e, s)) == Folded(Sum(e, s))
  {
    if |s| == 1 {
      assert Words(e, s)[1..] == [];
    } else if |s| > 1 {
      hide OnesAdd, Folded, WordOf;
      var w, rest := WordOf(e, s[0], s[1]), s[2..];
      OnesSumIsFoldedSum(e, rest);
      FoldedAdd(w, Sum(e, rest));
      assert Words(e, s)[0] == w && Words(e, s)[1..] == Words(e, rest);
    }
  }

  lemma FoldedAdd(w: Word, n: nat)
    ensures OnesAdd(w, Folded(n)) == Folded(w + n)
  {
    if n > 0 {
      var q := (n - 1) / 0xffff;
      assert w + n == w + Folded(n) + 0xffff * q;
      FoldedCong(w + Folded(n), q);
    }
  }

  lemma {:induction false} SumAppend(e: Endian, a: seq<Byte>, b: seq<Byte>)
    requires |a| % 2 == 0
    ensures Sum(e, a + b) == Sum(e, a) + Sum(e, b)
  {
    if a == [] {
      assert a + b == b;
    } else {
      assert (a + b)[2..] == a[2..] + b;
      SumAppend(e, a[2..], b);
    }
  }

  ghost predicate EvenButLast(vec: seq<seq<Byte>>) {
    forall k :: 0 <= k < |vec| - 1 ==> |vec[k]| % 2 == 0
  }

  lemma {:induction false} VecSumIsSumOfConcat(e: Endian, vec: seq<seq<Byte>>)
    requires EvenButLast(vec)
    ensures VecSum(e, vec) == Sum(e, Concat(vec))
  {
    if |vec| == 1 {
      assert vec[1..] == [];
      assert Concat(vec) == vec[0];
    } else if |vec| > 1 {
      assert EvenButLast(vec[1..]) by {
        forall k | 0 <= k < |vec[1..]| - 1 ensures |vec[1..][k]| % 2 == 0 {
          assert vec[1..][k] == vec[k + 1];
        }
      }
      VecSumIsSumOfConcat(e, vec[1..]);
      SumAppend(e, vec[0], Concat(vec[1..]));
    }
  }

  function WordCount(vec: seq<seq<Byte>>): nat {
    if vec == [] then 0 else (|vec[0]| + 1) / 2 + WordCount(vec[1..])
  }

  lemma {:induction false} SumBound(e: Endian, s: seq<Byte>)
    ensures Sum(e, s) <= 0xffff * ((|s| + 1) / 2)
  {
    if |s| > 1 { SumBound(e, s[2..]); }
  }

  lemma {:induction false} VecSumBound(e: Endian, vec: seq<seq<Byte>>)
    ensures VecSum(e, vec) <= 0xffff * WordCount(vec)
  {
    if vec != [] {
      SumBound(e, vec[0]);
      VecSumBound(e, vec[1..]);
    }
  }

  lemma {:induction false} WordCountOfConcat(vec: seq<seq<Byte>>)
    requires EvenButLast(vec)
    ensures WordCount(vec) == (|Concat(vec)| + 1) / 2
  {
    if |vec| == 1 {
      assert vec[1..] == [];
    } else if |vec| > 1 {
      assert forall k :: 0 <= k < |vec[1..]| - 1 ==> vec[1..][k] == vec[k + 1];
      WordCountOfConcat(vec[1..]);
    }
  }

  /** Over pieces that are even except the last, and at most 131,074 bytes in all, the code
      returns the reference checksum of the concatenation. */
  lemma CksumVecIsReference(e: Endian, vec: seq<seq<Byte>>)
    requires EvenButLast(vec)
    requires |Concat(vec)| <= 131_074
    ensures CksumVec(e, vec) == Reference(e, Concat(vec))
  {
    hide Sum, VecSum, Words, OnesSum, Concat, WordCount, Folded;
    VecSumIsSumOfConcat(e, vec);
    VecSumBound(e, vec);
    WordCountOfConcat(vec);
    OnesSumIsFoldedSum(e, Concat(vec));
    Remainder(VecSum(e, vec), 0, VecSum(e, vec));
  }

  // ----- pieces at odd offsets -----

  /** The sum of the pieces that start at an odd offset of the concatenation. */
  function Misplaced(e: Endian, vec: seq<seq<Byte>>, odd: bool): nat {
    if vec == [] then 0
    else (if odd then Sum(e, vec[0]) else 0) + Misplaced(e, vec[1..], odd != (|vec[0]| % 2 == 1))
  }

  function Pad(odd: bool, s: seq<Byte>): seq<Byte> {
    if odd then [0] + s else s
  }

  lemma {:induction false} SumCut(e: Endian, a: seq<Byte>, b: seq<Byte>)
    ensures Sum(e, a + b) == Sum(e, a) + Sum(e, Pad(|a| % 2 == 1, b))
  {
    if a == [] {
      assert a + b == b;
    } else if |a| == 1 {
      if b == [] {
        assert a + b == a;
      } else {
        assert (a + b)[2..] == b[1..] == ([0] + b)[2..];
      }
    } else {
      assert (a + b)[2..] == a[2..] + b;
      SumCut(e, a[2..], b);
    }
  }

  /** A byte in front multiplies the sum of what follows by 256, modulo 65535. */
  lemma {:induction false} SumShift(e: Endian, s: seq<Byte>) returns (q: nat)
    ensures 0x100 * Sum(e, s) == Sum(e, [0] + s) + 0xffff * q
    ensures Sum(e, [0] + s) == 0 <==> Sum(e, s) == 0
  {
    if s == [] {
      q := 0;
    } else if |s| == 1 {
      assert ([0] + s)[2..] == [];
      q := if e.Big? then s[0] else 0;
    } else {
      var p := SumShift(e, s[2..]);
      assert ([0] + s)[2..] == [s[1]] + s[2..];
      SumCut(e, [s[1]], s[2..]);
      q := p + if e.Big? then s[0] else s[1];
    }
  }

  lemma {:induction false} PlacedSum(e: Endian, vec: seq<seq<Byte>>, odd: bool) returns (q: nat)
    ensures Sum(e, Pad(odd, Concat(vec))) + 0xffff * q == VecSum(e, vec) + 0xff * Misplaced(e, vec, odd)
    ensures Sum(e, Pad(odd, Concat(vec))) == 0 <==> VecSum(e, vec) == 0
  {
    if vec == [] {
      q := 0;
    } else {
      hide Sum, Pad;
      var p, rest := vec[0], Concat(vec[1..]);
      q := PlacedSum(e, vec[1..], odd != (|p| % 2 == 1));
      var shift := PlacedPiece(e, odd, p, rest);
      q := q + shift;
    }
  }

  lemma PlacedPiece(e: Endian, odd: bool, p: seq<Byte>, rest: seq<Byte>) returns (q: nat)
    ensures
      var tail := Sum(e, Pad(odd != (|p| % 2 == 1), rest));
      && Sum(e, Pad(odd, p + rest)) + 0xffff * q == (if odd then 0x100 * Sum(e, p) else Sum(e, p)) + tail
      && (Sum(e, Pad(odd, p + rest)) == 0 <==> Sum(e, p) == 0 && tail == 0)
  {
    hide Sum;
    if odd {
      q := SumShift(e, p);
      SumCut(e, [0] + p, rest);
      assert [0] + (p + rest) == ([0] + p) + rest;
    } else {
      q := 0;
      SumCut(e, p, rest);
    }
  }

  lemma FoldedSame(a: nat, b: nat)
    ensures Folded(a) == Folded(b) <==> a % 0xffff == b % 0xffff && (a == 0 <==> b == 0)
  {
  }

  lemma CongruentBy(a: nat, b: nat, k: int, q: int)
    requires a + k == b + 0xffff * q
    ensures a % 0xffff == b % 0xffff <==> k % 0xffff == 0
  {
    var x, y := a % 0xffff, b % 0xffff;
    var u, v := a / 0xffff, b / 0xffff;
    assert k == y - x + 0xffff * (q + v - u);
  }

  /** The checksum of any pieces of any length, exactly: each wrap of the accumulator loses one
      modulo 65535, and a piece at an odd offset counts once where it should count 256 times. */
  lemma ChecksumExactly(e: Endian, vec: seq<seq<Byte>>)
    ensures
      var n := VecSum(e, vec);
      CksumVec(e, vec) == Reference(e, Concat(vec))
      <==> (n / TWO32 + 0xff * Misplaced(e, vec, false)) % 0xffff == 0 && (n % TWO32 == 0 ==> n == 0)
  {
    hide Sum, VecSum, Words, OnesSum, Concat, Folded, Misplaced;
    OnesSumIsFoldedSum(e, Concat(vec));
    var q := PlacedSum(e, vec, false);
    var n, m, wraps := VecSum(e, vec), Sum(e, Concat(vec)), VecSum(e, vec) / TWO32;
    var left := n % TWO32;
    FoldedSame(left, m);
    assert n == left + TWO32 * wraps;
    CongruentBy(left, m, wraps + 0xff * Misplaced(e, vec, false), q - 0x1_0001 * wraps);
  }

  lemma {:induction false} NoneMisplaced(e: Endian, vec: seq<seq<Byte>>)
    requires EvenButLast(vec)
    ensures Misplaced(e, vec, false) == 0
  {
    if |vec| > 1 {
      assert forall k :: 0 <= k < |vec[1..]| - 1 ==> vec[1..][k] == vec[k + 1];
      NoneMisplaced(e, vec[1..]);
    }
  }

  /** For pieces that are even except the last, the accumulator is right exactly while the true sum
      fits in 32 bits, or when the lost wraps are a multiple of 65535 and leave something. */
  lemma WrapExactly(e: Endian, vec: seq<seq<Byte>>)
    requires EvenButLast(vec)
    ensures
      var wraps, left := VecSum(e, vec) / TWO32, VecSum(e, vec) % TWO32;
      CksumVec(e, vec) == Reference(e, Concat(vec)) <==> wraps == 0 || (wraps % 0xffff == 0 && left > 0)
  {
    hide CksumVec, Reference, VecSum, Misplaced;
    ChecksumExactly(e, vec);
    NoneMisplaced(e, vec);
    var n := VecSum(e, vec);
    assert n == n % TWO32 + TWO32 * (n / TWO32);
  }

  lemma Multiple257(k: nat)
    ensures 0xff * k % 0xffff == 0 <==> k % 257 == 0
  {
    var q, r := k / 257, k % 257;
    assert 0xff * k == 0xffff * q + 0xff * r;
  }

  /** While the accumulator cannot wrap, pieces of any length give the right checksum if and only if
      the sum of those at odd offsets is a multiple of 257. */
  lemma OddPiecesExactly(e: Endian, vec: seq<seq<Byte>>)
    requires WordCount(vec) <= 65_537
    ensures CksumVec(e, vec) == Reference(e, Concat(vec)) <==> Misplaced(e, vec, false) % 257 == 0
  {
    hide CksumVec, Reference, VecSum, Misplaced, WordCount;
    ChecksumExactly(e, vec);
    VecSumBound(e, vec);
    Remainder(VecSum(e, vec), 0, VecSum(e, vec));
    assert VecSum(e, vec) / TWO32 == 0;
    Multiple257(Misplaced(e, vec, false));
  }

  /** An odd piece in front of others: right exactly when the sum behind it is a multiple of 257. */
  lemma OddPieceDiffers(e: Endian, a: seq<Byte>, rest: seq<Byte>)
    requires |a| % 2 == 1 && |a| + |rest| <= 131_073
    ensures CksumVec(e, [a, rest]) == Reference(e, a + rest) <==> Sum(e, rest) % 257 == 0
  {
    var vec := [a, rest];
    assert vec[1..] == [rest] && [rest][1..] == [];
    VecOfOne(e, rest);
    hide CksumVec, Reference, Sum;
    assert Concat(vec) == a + rest;
    assert Misplaced(e, [rest], true) == Sum(e, rest);
    OddPiecesExactly(e, vec);
  }

  /** Two pieces of one and two bytes, on a host of either byte order. */
  lemma OddPieceCase(e: Endian)
    ensures CksumVec(e, [[0], [1, 0]]) != Reference(e, [0] + [1, 0])
  {
    assert [1, 0][2..] == [];
    assert Sum(e, [1, 0]) == WordOf(e, 1, 0);
    OddPieceDiffers(e, [0], [1, 0]);
  }

  /** 131,074 bytes is the longest buffer that is safe for every content: one more byte of ones
      wraps the accumulator. */
  lemma LengthBoundIsTight(e: Endian, s: seq<Byte>)
    requires |s| == 131_075
    requires forall i :: 0 <= i < |s| ==> s[i] == 0xff
    ensures CksumVec(e, [s]) != Reference(e, s)
  {
    var front, last := s[..131_074], s[131_074..];
    assert s == front + last && last == [0xff];
    SumOfOnes(e, front);
    SumAppend(e, front, last);
    VecOfOne(e, s);
    var n := VecSum(e, [s]);
    hide Sum, VecSum, CksumVec, Reference;
    assert n == 0xffff * 65_537 + WordOf(e, 0xff, 0);
    Remainder(n, 1, n - TWO32);
    WrapExactly(e, [s]);
  }

  lemma {:induction false} SumOfOnes(e: Endian, s: seq<Byte>)
    requires |s| % 2 == 0
    requires forall i :: 0 <= i < |s| ==> s[i] == 0xff
    ensures Sum(e, s) == 0xffff * (|s| / 2)
  {
    if |s| > 0 { SumOfOnes(e, s[2..]); }
  }

  lemma VecOfOne(e: Endian, s: seq<Byte>)
    ensures VecSum(e, [s]) == Sum(e, s) && Concat([s]) == s && WordCount([s]) == (|s| + 1) / 2
  {
    assert [s][1..] == [];
  }

  // ----- verification of a stored checksum -----

  lemma {:induction false} SumUpdate(e: Endian, s: seq<Byte>, at: nat, b0: Byte, b1: Byte)
    requires at % 2 == 0 && at + 1 < |s|
    ensures Sum(e, s[at := b0][at + 1 := b1]) == Sum(e, s) - WordOf(e, s[at], s[at + 1]) + WordOf(e, b0, b1)
  {
    var t := s[at := b0][at + 1 := b1];
    if at == 0 {
      assert t[2..] == s[2..];
    } else {
      assert t[2..] == s[2..][at - 2 := b0][at - 1 := b1];
      SumUpdate(e, s[2..], at - 2, b0, b1);
    }
  }

  /** Storing the checksum of a buffer in a zeroed, word-aligned field of it makes the whole
      buffer check to zero (section 1 of RFC 1071, step 3). */
  lemma StoredChecksumVerifies(e: Endian, s: seq<Byte>, at: nat)
    requires at % 2 == 0 && at + 1 < |s| && |s| <= 131_074
    requires s[at] == 0 && s[at + 1] == 0
    ensures
      var c := CksumVec(e, [s]);
      CksumVec(e, [s[at := FirstByte(e, c)][at + 1 := SecondByte(e, c)]]) == 0
  {
    hide Sum, VecSum, Folded, Words, OnesSum, Concat, WordCount;
    var c := CksumVec(e, [s]);
    var t := s[at := FirstByte(e, c)][at + 1 := SecondByte(e, c)];
    BytesOfWord(e, c);
    SumUpdate(e, s, at, FirstByte(e, c), SecondByte(e, c));
    SumBound(e, s);
    SumBound(e, t);
    VecOfOne(e, s);
    VecOfOne(e, t);
    Remainder(Sum(e, s), 0, Sum(e, s));
    Remainder(Sum(e, t), 0, Sum(e, t));
    FoldedComplement(Sum(e, s));
  }

  lemma BytesOfWord(e: Endian, w: Word)
    ensures WordOf(e, FirstByte(e, w), SecondByte(e, w)) == w
    ensures WordOf(e, 0, 0) == 0
  {
  }

  lemma FoldedComplement(n: nat)
    ensures Folded(n + (0xffff - Folded(n))) == 0xffff
  {
    if n > 0 {
      var q := (n - 1) / 0xffff;
      assert n + (0xffff - Folded(n)) == 0xffff + 0xffff * q;
      FoldedCong(0xffff, q);
    }
  }

  // ----- byte-order independence -----

  function Swapped(w: Word): Word {
    w / 0x100 + 0x100 * (w % 0x100)
  }

  lemma {:induction false} SumOfSwapped(s: seq<Byte>) returns (q: int)
    ensures 0x100 * Sum(Little, s) == Sum(Big, s) + 0xffff * q && q >= 0
  {
    if |s| == 0 {
      q := 0;
    } else if |s| == 1 {
      q := 0;
    } else {
      q := SumOfSwapped(s[2..]);
      q := q + s[1];
    }
  }

  lemma FoldedOfShifted(n: nat)
    ensures Folded(0x100 * n) == Swapped(Folded(n))
  {
    if n > 0 {
      var q, f := (n - 1) / 0xffff, Folded(n);
      assert n == f + 0xffff * q;
      FoldedCong(0x100 * f, 0x100 * q);
      ShiftedWord(f);
    }
  }

  lemma ShiftedWord(f: Word)
    requires f > 0
    ensures Folded(0x100 * f) == Swapped(f)
  {
    var h, l := f / 0x100, f % 0x100;
    assert 0x100 * f == (h + 0x100 * l) + 0xffff * h;
    FoldedCong(h + 0x100 * l, h);
  }

  /** Section 2(B) of RFC 1071: the checksum computed on a host of the other byte order is the
      same two bytes, so the comparison with zero does not depend on the host. */
  lemma ByteOrderIndependence(s: seq<Byte>)
    ensures Reference(Big, s) == Swapped(Reference(Little, s))
    ensures FirstByte(Big, Reference(Big, s)) == FirstByte(Little, Reference(Little, s))
    ensures Reference(Big, s) == 0 <==> Reference(Little, s) == 0
  {
    hide Sum, Folded, Words, OnesSum;
    OnesSumIsFoldedSum(Little, s);
    OnesSumIsFoldedSum(Big, s);
    var q := SumOfSwapped(s);
    FoldedOfShifted(Sum(Little, s));
    if Sum(Big, s) > 0 {
      FoldedCong(Sum(Big, s), q);
    } else {
      SumZeroBothWays(s);
    }
    SwappedComplement(OnesSum(Words(Little, s)));
  }

  lemma SwappedComplement(w: Word)
    ensures Swapped(0xffff - w) == 0xffff - Swapped(w)
    ensures FirstByte(Big, Swapped(w)) == FirstByte(Little, w)
    ensures Swapped(w) == 0xffff <==> w == 0xffff
  {
  }

  lemma {:induction false} SumZeroBothWays(s: seq<Byte>)
    ensures Sum(Big, s) == 0 <==> Sum(Little, s) == 0
  {
    if |s| > 1 { SumZeroBothWays(s[2..]); }
  }
}
