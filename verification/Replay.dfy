/** The anti-replay window of a session (noise/session.rs,
    `ReceivingKeyCounterValidator`; section 5.4.6 of the WireGuard paper and
    RFC 6479).

    `Window` is the simple form: a set that remembers every counter accepted, for
    as long as `next` does not wrap.  `CounterValidator` is the fast form the program runs: a circular bitmap of
    1024 bits.  Arithmetic on counters is that of a release build, where `u64`
    additions wrap. */
module Replay {
  import opened Common

  const WORD_SIZE: nat := 64
  const N_WORDS: nat := 16
  const N_BITS: nat := 1024

  // ---------------------------------------------------------------- simple form

  datatype Window = Window(next: u64, accepted: set<nat>) {
    /** Every accepted counter is below `next`. */
    ghost predicate Valid() {
      forall a :: a in accepted ==> a < next
    }

    /** The accepted counters below `next`: all of them until `next` wraps. */
    function Kept(): set<nat> {
      set a | a in accepted && a < next
    }
  }

  const EmptyWindow := Window(0, {})

  /** The guard both checks begin with; the sum wraps. */
  predicate TooFarBack(w: Window, counter: u64) {
    (counter + N_BITS) % U64 < w.next
  }

  function WillAccept(w: Window, counter: u64): Result<()> {
    if counter >= w.next then Ok(())
    else if TooFarBack(w, counter) then Err(InvalidCounter)
    else if counter in w.accepted then Err(DuplicateCounter)
    else Ok(())
  }

  function Mark(w: Window, counter: u64): (Window, Result<()>) {
    if TooFarBack(w, counter) || (counter < w.next && counter in w.accepted) then
      (w, Err(InvalidCounter))
    else if counter < w.next then
      (w.(accepted := w.accepted + {counter}), Ok(()))
    else
      (Window((counter + 1) % U64, w.Kept() + {counter}), Ok(()))
  }

  // ---------------------------------------------------------------- the bits

  predicate WordBit(w: bv64, i: bv6) {
    (w >> i) & 1 == 1
  }

  lemma OrSetsOneBit(w: bv64, i: bv6, j: bv6)
    ensures WordBit(w | ((1 as bv64) << i), j) <==> i == j || WordBit(w, j)
  {
  }

  lemma NotFlipsBits(w: bv64, j: bv6)
    ensures WordBit(!w, j) <==> !WordBit(w, j)
  {
  }

  lemma AndNotIsNotOr(a: bv64, b: bv64)
    ensures a & !b == !(!a | b)
  {
  }

  lemma AndNotClearsOneBit(w: bv64, i: bv6, j: bv6)
    ensures WordBit(w & !((1 as bv64) << i), j) <==> i != j && WordBit(w, j)
  {
    NotFlipsBits(w, j);
    NotFlipsBits(!w | ((1 as bv64) << i), j);
    OrSetsOneBit(!w, i, j);
    AndNotIsNotOr(w, (1 as bv64) << i);
  }

  lemma ZeroHasNoBits(j: bv6)
    ensures !WordBit(0, j)
  {
  }

  lemma ShiftRoundTrip(i: nat)
    requires i < WORD_SIZE
    ensures (i as bv6) as nat == i
  {
  }

  lemma SmallShiftsDiffer(i: nat, j: nat, x: bv6, y: bv6)
    requires i < WORD_SIZE && j < WORD_SIZE && x == i as bv6 && y == j as bv6
    ensures x == y <==> i == j
  {
    ShiftRoundTrip(i);
    ShiftRoundTrip(j);
  }

  /** Bit `j` of one word, with the shift distance as a number. */
  predicate Bit(w: bv64, j: nat)
    requires j < WORD_SIZE
  {
    WordBit(w, j as bv6)
  }

  lemma SetOne(w: bv64, i: nat, x: bv6, j: nat)
    requires i < WORD_SIZE && j < WORD_SIZE && x == i as bv6
    ensures Bit(w | ((1 as bv64) << x), j) <==> i == j || Bit(w, j)
  {
    var y := j as bv6;
    SmallShiftsDiffer(i, j, x, y);
    OrSetsOneBit(w, x, y);
  }

  lemma ClearOne(w: bv64, i: nat, x: bv6, j: nat)
    requires i < WORD_SIZE && j < WORD_SIZE && x == i as bv6
    ensures Bit(w & !((1 as bv64) << x), j) <==> i != j && Bit(w, j)
  {
    var y := j as bv6;
    SmallShiftsDiffer(i, j, x, y);
    AndNotClearsOneBit(w, x, y);
  }

  /** Bit number `p` of the bitmap, counted across its sixteen words. */
  predicate BitAt(words: seq<bv64>, p: nat)
    requires |words| == N_WORDS && p < N_BITS
  {
    Bit(words[p / WORD_SIZE], p % WORD_SIZE)
  }

  /** `p` is the position of some counter in `[from, to)`, when the range is
      shorter than the bitmap. */
  predicate Hit(from: nat, to: nat, p: nat)
    requires from <= to
  {
    (p - from) % N_BITS < to - from
  }

  /** `Hit` says what it should: a counter of the range sits at `p`. */
  lemma HitIsMembership(from: nat, to: nat, p: nat)
    requires from <= to && p < N_BITS
    ensures Hit(from, to, p) <==> exists k :: from <= k < to && k % N_BITS == p
  {
    var k := from + (p - from) % N_BITS;
    assert k % N_BITS == p;
    forall k' | from <= k' < to && k' % N_BITS == p ensures Hit(from, to, p) {
      assert (k' - from - (p - from)) % N_BITS == 0;
    }
  }

  lemma HitGrowsByOne(from: nat, i: nat, p: nat)
    requires from <= i < from + N_BITS && p < N_BITS
    ensures Hit(from, i + 1, p) <==> Hit(from, i, p) || p == i % N_BITS
  {
  }

  lemma WordAt(j: nat, p: nat)
    requires j < N_BITS && p < N_BITS && j % WORD_SIZE == 0
    ensures (p - j) % N_BITS < WORD_SIZE <==> p / WORD_SIZE == j / WORD_SIZE
  {
    assert j == WORD_SIZE * (j / WORD_SIZE);
    if p < j {
      RemainderIs(p - j, -1, p - j + N_BITS);
    } else {
      RemainderIs(p - j, 0, p - j);
    }
  }

  lemma RemainderIs(x: int, q: int, r: nat)
    requires x == N_BITS * q + r && r < N_BITS
    ensures x % N_BITS == r
  {
  }

  lemma OffsetsAdd(from: nat, i: nat, p: nat)
    requires from <= i && p < N_BITS
    ensures (p - i) % N_BITS == (p - i % N_BITS) % N_BITS
    ensures (p - from) % N_BITS == ((i - from) + (p - i) % N_BITS) % N_BITS
  {
    var q, r := (p - i) / N_BITS, (p - i) % N_BITS;
    RemainderIs(p - i % N_BITS, q + i / N_BITS, r);
    var x := i - from + r;
    RemainderIs(p - from, q + x / N_BITS, x % N_BITS);
  }

  lemma AlignedWrap(i: nat)
    requires i % WORD_SIZE == 0
    ensures i % N_BITS % WORD_SIZE == 0
  {
    assert i == N_BITS * (i / N_BITS) + i % N_BITS;
  }

  lemma HitGrowsByWord(from: nat, i: nat, p: nat)
    requires from <= i && i + WORD_SIZE <= from + N_BITS && p < N_BITS && i % WORD_SIZE == 0
    ensures Hit(from, i + WORD_SIZE, p) <==> Hit(from, i, p) || p / WORD_SIZE == (i % N_BITS) / WORD_SIZE
  {
    var d, b := i - from, (p - i) % N_BITS;
    OffsetsAdd(from, i, p);
    assert Hit(from, i + WORD_SIZE, p) <==> (d + b) % N_BITS < d + WORD_SIZE;
    assert Hit(from, i, p) <==> (d + b) % N_BITS < d;
    AlignedWrap(i);
    WordAt(i % N_BITS, p);
    OffsetInWord(d, b);
  }

  lemma OffsetInWord(d: nat, b: nat)
    requires d + WORD_SIZE <= N_BITS && b < N_BITS
    ensures (d + b) % N_BITS < d + WORD_SIZE <==> (d + b) % N_BITS < d || b < WORD_SIZE
  {
    assert d + b >= N_BITS ==> (d + b) % N_BITS == d + b - N_BITS;
  }

  /** `words` is `words0` with the positions of `[from, to)` cleared. */
  ghost predicate Cleared(words0: seq<bv64>, words: seq<bv64>, from: nat, to: nat)
    requires |words0| == |words| == N_WORDS && from <= to
  {
    forall p: nat | p < N_BITS :: BitAt(words, p) <==> BitAt(words0, p) && !Hit(from, to, p)
  }

  /** `words'` is `words` with the bit at `p0` set. */
  ghost predicate WithSet(words: seq<bv64>, words': seq<bv64>, p0: nat)
    requires |words| == |words'| == N_WORDS
  {
    forall p: nat | p < N_BITS :: BitAt(words', p) <==> p == p0 || BitAt(words, p)
  }

  lemma ClearedByBit(words0: seq<bv64>, words: seq<bv64>, words': seq<bv64>, from: nat, i: nat)
    requires |words0| == |words| == |words'| == N_WORDS && from <= i < from + N_BITS
    requires Cleared(words0, words, from, i)
    requires forall p: nat | p < N_BITS :: BitAt(words', p) <==> p != i % N_BITS && BitAt(words, p)
    ensures Cleared(words0, words', from, i + 1)
  {
    forall p: nat | p < N_BITS ensures BitAt(words', p) <==> BitAt(words0, p) && !Hit(from, i + 1, p) {
      HitGrowsByOne(from, i, p);
    }
  }

  lemma ClearedByWord(words0: seq<bv64>, words: seq<bv64>, words': seq<bv64>, from: nat, i: nat)
    requires |words0| == |words| == |words'| == N_WORDS
    requires from <= i && i + WORD_SIZE <= from + N_BITS && i % WORD_SIZE == 0
    requires Cleared(words0, words, from, i)
    requires forall p: nat | p < N_BITS ::
               BitAt(words', p) <==> p / WORD_SIZE != (i % N_BITS) / WORD_SIZE && BitAt(words, p)
    ensures Cleared(words0, words', from, i + WORD_SIZE)
  {
    forall p: nat | p < N_BITS ensures BitAt(words', p) <==> BitAt(words0, p) && !Hit(from, i + WORD_SIZE, p) {
      HitGrowsByWord(from, i, p);
    }
  }

  method WithBit(w: bv64, bit: nat) returns (r: bv64)
    requires bit < WORD_SIZE
    ensures forall j: nat | j < WORD_SIZE :: Bit(r, j) <==> j == bit || Bit(w, j)
  {
    var x := bit as bv6;
    r := w | ((1 as bv64) << x);
    forall j: nat | j < WORD_SIZE ensures Bit(r, j) <==> j == bit || Bit(w, j) {
      SetOne(w, bit, x, j);
    }
  }

  method WithoutBit(w: bv64, bit: nat) returns (r: bv64)
    requires bit < WORD_SIZE
    ensures forall j: nat | j < WORD_SIZE :: Bit(r, j) <==> j != bit && Bit(w, j)
  {
    var x := bit as bv6;
    r := w & !((1 as bv64) << x);
    forall j: nat | j < WORD_SIZE ensures Bit(r, j) <==> j != bit && Bit(w, j) {
      ClearOne(w, bit, x, j);
    }
  }

  // ---------------------------------------------------------------- fast form

  /** The refinement relation: inside the window, a set bit is an accepted
      counter. */
  ghost predicate Refines(words: seq<bv64>, w: Window)
    requires |words| == N_WORDS
  {
    forall k: nat | k < w.next <= k + N_BITS :: BitAt(words, k % N_BITS) <==> k in w.accepted
  }

  /** `words'` is `words` with the positions of `[from, to)` cleared and the
      position of `to` set. */
  ghost predicate Advanced(words: seq<bv64>, words': seq<bv64>, from: nat, to: nat)
    requires |words| == |words'| == N_WORDS && from <= to
  {
    forall p: nat | p < N_BITS ::
      BitAt(words', p) <==> p == to % N_BITS || (BitAt(words, p) && !Hit(from, to, p))
  }

  lemma AdvancedBySetting(words: seq<bv64>, cleared: seq<bv64>, words': seq<bv64>, from: nat, to: nat)
    requires |words| == |cleared| == |words'| == N_WORDS && from <= to
    requires Cleared(words, cleared, from, to) && WithSet(cleared, words', to % N_BITS)
    ensures Advanced(words, words', from, to)
  {
  }

  lemma NothingToClear(words: seq<bv64>, n: nat)
    requires |words| == N_WORDS
    ensures Cleared(words, words, n, n)
  {
  }

  lemma SamePosition(k: nat, l: nat)
    requires k % N_BITS == l % N_BITS && k <= l < k + N_BITS
    ensures k == l
  {
  }

  /** Where a counter of the new window sits, relative to the cleared range. */
  lemma HitInWindow(from: nat, to: nat, k: nat)
    requires from <= to && k < to < k + N_BITS
    ensures Hit(from, to, k % N_BITS) <==> from <= k
  {
    if k < from {
      assert (k - from) % N_BITS == k - from + N_BITS;
    }
  }

  /** A counter at or past `next`: what was skipped is unmarked, what is still in
      the window keeps its mark. */
  lemma AdvancePreserves(words: seq<bv64>, words': seq<bv64>, w: Window, counter: u64)
    requires |words| == |words'| == N_WORDS && Refines(words, w)
    requires w.next <= counter && Advanced(words, words', w.next, counter)
    ensures Refines(words', Window((counter + 1) % U64, w.Kept() + {counter}))
  {
    forall k: nat | k <= counter < k + N_BITS
      ensures BitAt(words', k % N_BITS) <==> k in w.Kept() + {counter}
    {
      if k < counter {
        if k % N_BITS == counter % N_BITS {
          SamePosition(k, counter);
        }
        HitInWindow(w.next, counter, k);
      }
    }
  }

  /** A late counter inside the window: only its own bit changes. */
  lemma LatePreserves(words: seq<bv64>, words': seq<bv64>, w: Window, counter: u64)
    requires |words| == |words'| == N_WORDS && Refines(words, w)
    requires counter < w.next <= counter + N_BITS
    requires WithSet(words, words', counter % N_BITS)
    ensures Refines(words', w.(accepted := w.accepted + {counter}))
  {
    forall k: nat | k < w.next <= k + N_BITS
      ensures BitAt(words', k % N_BITS) <==> k in w.accepted + {counter}
    {
      if k % N_BITS == counter % N_BITS {
        if k <= counter { SamePosition(k, counter); } else { SamePosition(counter, k); }
      }
    }
  }

  lemma NextWord(i: nat)
    requires i % WORD_SIZE == 0
    ensures (i + WORD_SIZE) % WORD_SIZE == 0
  {
  }

  /** What is left once the wrapping guard was passed. */
  lemma PastTheGuard(counter: u64, next: u64)
    requires (counter + N_BITS) % U64 >= next
    ensures counter < next ==> next <= counter + N_BITS
    ensures next <= counter < next + N_BITS ==> counter + N_BITS < U64
  {
    assert counter + N_BITS >= U64 ==> (counter + N_BITS) % U64 == counter + N_BITS - U64;
  }

  class CounterValidator {
    var next: u64
    var receiveCnt: u64
    const bitmap: array<bv64>
    ghost var accepted: set<nat>

    /** The simple form this object stands for. */
    ghost function Model(): Window
      reads this
    {
      Window(next, accepted)
    }

    ghost predicate Valid()
      reads this, bitmap
    {
      && bitmap.Length == N_WORDS
      && Refines(bitmap[..], Model())
    }

    constructor ()
      ensures Valid() && fresh(bitmap)
      ensures Model() == EmptyWindow && receiveCnt == 0
    {
      next, receiveCnt, accepted := 0, 0, {};
      bitmap := new bv64[N_WORDS](_ => 0);
    }

    method SetBit(idx: u64)
      requires bitmap.Length == N_WORDS
      modifies bitmap
      ensures WithSet(old(bitmap[..]), bitmap[..], idx % N_BITS)
    {
      var bitIdx := idx % N_BITS;
      var word := bitIdx / WORD_SIZE;
      var bit := bitIdx % WORD_SIZE;
      var w := WithBit(bitmap[word], bit);
      bitmap[word] := w;
    }

    method ClearBit(idx: u64)
      requires bitmap.Length == N_WORDS
      modifies bitmap
      ensures forall p: nat | p < N_BITS :: BitAt(bitmap[..], p) <==> p != idx % N_BITS && BitAt(old(bitmap[..]), p)
    {
      var bitIdx := idx % N_BITS;
      var word := bitIdx / WORD_SIZE;
      var bit := bitIdx % WORD_SIZE;
      var w := WithoutBit(bitmap[word], bit);
      bitmap[word] := w;
    }

    /** Clear the word that contains `idx`. */
    method ClearWord(idx: u64)
      requires bitmap.Length == N_WORDS
      modifies bitmap
      ensures forall p: nat | p < N_BITS ::
                BitAt(bitmap[..], p) <==> p / WORD_SIZE != (idx % N_BITS) / WORD_SIZE && BitAt(old(bitmap[..]), p)
    {
      var word := (idx % N_BITS) / WORD_SIZE;
      ghost var before := bitmap[..];
      bitmap[word] := 0;
      forall p: nat | p < N_BITS
        ensures BitAt(bitmap[..], p) <==> p / WORD_SIZE != word && BitAt(before, p)
      {
        ZeroHasNoBits((p % WORD_SIZE) as bv6);
      }
    }

    method CheckBit(idx: u64) returns (r: bool)
      requires bitmap.Length == N_WORDS
      ensures r <==> BitAt(bitmap[..], idx % N_BITS)
    {
      var bitIdx := idx % N_BITS;
      var word := bitIdx / WORD_SIZE;
      var bit := bitIdx % WORD_SIZE;
      r := (bitmap[word] >> (bit as bv6)) & 1 == 1;
    }

    /** All bits are cleared, which is what skipping a whole window asks for. */
    method ClearAll(ghost lo: u64, ghost hi: u64)
      requires bitmap.Length == N_WORDS && lo + N_BITS <= hi
      modifies bitmap
      ensures Cleared(old(bitmap[..]), bitmap[..], lo, hi)
    {
      for i := 0 to N_WORDS
        invariant forall j | 0 <= j < i :: bitmap[j] == 0
      {
        bitmap[i] := 0;
      }
      forall p: nat | p < N_BITS ensures !BitAt(bitmap[..], p) {
        ZeroHasNoBits((p % WORD_SIZE) as bv6);
      }
    }

    /** The three clearing loops: bits up to a word boundary, whole words, the
        remaining bits.  Exactly the positions of `[lo, hi)` are cleared, and
        no index computed on the way leaves the range of `u64`. */
    method ClearSkipped(lo: u64, hi: u64)
      requires bitmap.Length == N_WORDS
      requires lo < hi < lo + N_BITS && hi + WORD_SIZE < U64
      modifies bitmap
      ensures Cleared(old(bitmap[..]), bitmap[..], lo, hi)
      ensures forall p: nat | p < N_BITS ::
                BitAt(bitmap[..], p) <==> BitAt(old(bitmap[..]), p) && !exists k :: lo <= k < hi && k % N_BITS == p
    {
      var i: u64 := lo;
      NothingToClear(bitmap[..], lo);
      while i % WORD_SIZE != 0 && i < hi
        decreases hi - i
        invariant lo <= i <= hi
        invariant Cleared(old(bitmap[..]), bitmap[..], lo, i)
      {
        ghost var words := bitmap[..];
        ClearBit(i);
        ClearedByBit(old(bitmap[..]), words, bitmap[..], lo, i);
        i := i + 1;
      }
      while i + WORD_SIZE < hi
        invariant lo <= i <= hi && (i % WORD_SIZE == 0 || i == hi)
        invariant Cleared(old(bitmap[..]), bitmap[..], lo, i)
      {
        ghost var words := bitmap[..];
        ClearWord(i);
        ClearedByWord(old(bitmap[..]), words, bitmap[..], lo, i);
        NextWord(i);
        i := (i + WORD_SIZE) - (i + WORD_SIZE) % WORD_SIZE;
      }
      while i < hi
        invariant lo <= i <= hi
        invariant Cleared(old(bitmap[..]), bitmap[..], lo, i)
      {
        ghost var words := bitmap[..];
        ClearBit(i);
        ClearedByBit(old(bitmap[..]), words, bitmap[..], lo, i);
        i := i + 1;
      }
      forall p: nat | p < N_BITS
        ensures BitAt(bitmap[..], p) <==> BitAt(old(bitmap[..]), p) && !exists k :: lo <= k < hi && k % N_BITS == p
      {
        HitIsMembership(lo, hi, p);
      }
    }

    /** The quick check, before decryption. */
    method WillAcceptCounter(counter: u64) returns (r: Result<()>)
      requires Valid()
      ensures r == WillAccept(Model(), counter)
    {
      if counter >= next {
        return Ok(());
      }
      if (counter + N_BITS) % U64 < next {
        return Err(InvalidCounter);
      }
      var seen := CheckBit(counter);
      r := if seen then Err(DuplicateCounter) else Ok(());
    }

    /** A counter behind `next`, inside the window. */
    method MarkLate(counter: u64) returns (r: Result<()>)
      requires Valid() && counter < next <= counter + N_BITS
      modifies this`accepted, bitmap
      ensures r == if counter in old(accepted) then Err(InvalidCounter) else Ok(())
      ensures Valid() && accepted == if r.Ok? then old(accepted) + {counter} else old(accepted)
    {
      ghost var w, words := Model(), bitmap[..];
      var seen := CheckBit(counter);
      if seen {
        return Err(InvalidCounter);
      }
      SetBit(counter);
      accepted := accepted + {counter};
      LatePreserves(words, bitmap[..], w, counter);
      return Ok(());
    }

    /** A counter past `next`: what it skips is cleared. */
    method MarkAhead(counter: u64)
      requires Valid() && next < counter && (counter < next + N_BITS ==> counter + N_BITS < U64)
      modifies this`next, this`accepted, bitmap
      ensures Valid() && Model() == Window((counter + 1) % U64, old(Model().Kept()) + {counter})
    {
      ghost var w, words := Model(), bitmap[..];
      if counter - next >= N_BITS {
        ClearAll(next, counter);
      } else {
        ClearSkipped(next, counter);
      }
      ghost var cleared := bitmap[..];
      SetBit(counter);
      accepted := w.Kept() + {counter};
      next := (counter + 1) % U64;
      AdvancedBySetting(words, cleared, bitmap[..], w.next, counter);
      AdvancePreserves(words, bitmap[..], w, counter);
    }

    /** The next counter in order. */
    method MarkNext()
      requires Valid()
      modifies this`next, this`accepted, bitmap
      ensures Valid() && Model() == Window((old(next) + 1) % U64, old(Model().Kept()) + {old(next)})
    {
      ghost var w, words := Model(), bitmap[..];
      SetBit(next);
      accepted := w.Kept() + {next};
      next := (next + 1) % U64;
      NothingToClear(words, w.next);
      AdvancedBySetting(words, words, bitmap[..], w.next, w.next);
      AdvancePreserves(words, bitmap[..], w, w.next);
    }

    /** The second check, after decryption: marks the counter as received.  The
        bitmap refines the simple form for every counter, the last one included. */
    method MarkDidReceive(counter: u64) returns (r: Result<()>)
      requires Valid()
      modifies this`next, this`accepted, bitmap
      ensures Valid() && (Model(), r) == Mark(old(Model()), counter)
    {
      if (counter + N_BITS) % U64 < next {
        return Err(InvalidCounter);
      }
      PastTheGuard(counter, next);
      if counter == next {
        MarkNext();
        return Ok(());
      }
      if counter < next {
        r := MarkLate(counter);
        return;
      }
      MarkAhead(counter);
      return Ok(());
    }
  }
}
