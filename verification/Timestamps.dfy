/** The TAI64N timestamps carried by handshake initiations
    (noise/handshake.rs, `TimeStamper::stamp` and `Tai64N`). */
module Timestamps {
  import opened Common
  import opened Crypto

  const NANOS: nat := 1_000_000_000
  const TAI64_BASE: nat := 0x4000_0000_0000_0025  // (1 << 62) + 37

  datatype Tai64N = Tai64N(secs: u64, nano: u32) {
    /** Chronologically later than `other`. */
    predicate After(other: Tai64N) {
      secs > other.secs || (secs == other.secs && nano > other.nano)
    }
  }

  const ZeroStamp := Tai64N(0, 0)

  /** The twelve bytes stamped at `t` nanoseconds after the epoch; the addition
      to the seconds wraps. */
  function StampAt(t: nat): Stamp {
    Be((t / NANOS + TAI64_BASE) % U64, 8) + Be(t % NANOS, 4)
  }

  function Parse(buf: Stamp): Tai64N {
    PowersOf256();
    Tai64N(FromBe(buf[..8]), FromBe(buf[8..]))
  }

  lemma ShiftDigit(d: nat, p: nat, x: nat)
    ensures 256 * (d * p + x) == d * (256 * p) + 256 * x
  {
  }

  lemma {:induction false} FromBeHead(b: Bytes)
    requires b != []
    ensures FromBe(b) == b[0] * Pow256(|b| - 1) + FromBe(b[1..])
  {
    var n := |b| - 1;
    if n > 0 {
      FromBeHead(b[..n]);
      assert b[..n][1..] == b[1..][..n - 1];
      ShiftDigit(b[0], Pow256(n - 1), FromBe(b[..n][1..]));
    }
  }

  lemma HeadDecides(x: nat, y: nat, p: nat, f: nat, g: nat)
    requires x < y && f < p
    ensures x * p + f < y * p + g
  {
    assert (x + 1) * p <= y * p;
  }

  /** Big-endian bytes compare as the numbers they encode. */
  lemma {:induction false} BeOrder(a: Bytes, b: Bytes)
    requires |a| == |b|
    ensures LexLess(a, b) <==> FromBe(a) < FromBe(b)
  {
    if a != [] {
      FromBeHead(a);
      FromBeHead(b);
      BeOrder(a[1..], b[1..]);
      if a[0] < b[0] {
        HeadDecides(a[0], b[0], Pow256(|a| - 1), FromBe(a[1..]), FromBe(b[1..]));
      } else if b[0] < a[0] {
        HeadDecides(b[0], a[0], Pow256(|a| - 1), FromBe(b[1..]), FromBe(a[1..]));
      }
    }
  }

  lemma {:induction false} LexConcat(a1: Bytes, a2: Bytes, b1: Bytes, b2: Bytes)
    requires |a1| == |b1| && |a2| == |b2|
    ensures LexLess(a1 + a2, b1 + b2) <==> LexLess(a1, b1) || (a1 == b1 && LexLess(a2, b2))
  {
    if a1 == [] {
      assert a1 + a2 == a2 && b1 + b2 == b2;
    } else {
      LexConcat(a1[1..], a2, b1[1..], b2);
      assert (a1 + a2)[1..] == a1[1..] + a2 && (b1 + b2)[1..] == b1[1..] + b2;
      assert a1 == [a1[0]] + a1[1..] && b1 == [b1[0]] + b1[1..];
    }
  }

  lemma {:induction false} FromBeInjective(a: Bytes, b: Bytes)
    requires |a| == |b| && FromBe(a) == FromBe(b)
    ensures a == b
  {
    if a != [] {
      var n := |a| - 1;
      FromBeInjective(a[..n], b[..n]);
      assert a == a[..n] + [a[n]] && b == b[..n] + [b[n]];
    }
  }

  /** Comparing parsed timestamps is comparing their bytes. */
  lemma AfterIsByteOrder(a: Stamp, b: Stamp)
    ensures Parse(b).After(Parse(a)) <==> LexLess(a, b)
  {
    BeOrder(a[..8], b[..8]);
    BeOrder(a[8..], b[8..]);
    LexConcat(a[..8], a[8..], b[..8], b[8..]);
    assert a[..8] + a[8..] == a && b[..8] + b[8..] == b;
    if FromBe(a[..8]) == FromBe(b[..8]) {
      FromBeInjective(a[..8], b[..8]);
    }
  }

  lemma ParseStamp(t: nat)
    ensures Parse(StampAt(t)) == Tai64N((t / NANOS + TAI64_BASE) % U64, t % NANOS)
  {
    PowersOf256();
    BeRoundTrip((t / NANOS + TAI64_BASE) % U64, 8);
    BeRoundTrip(t % NANOS, 4);
    assert StampAt(t)[..8] == Be((t / NANOS + TAI64_BASE) % U64, 8);
    assert StampAt(t)[8..] == Be(t % NANOS, 4);
  }

  lemma TaiOrder(t1: nat, t2: nat)
    requires t1 / NANOS + TAI64_BASE < U64 && t2 / NANOS + TAI64_BASE < U64
    ensures var late := Tai64N((t2 / NANOS + TAI64_BASE) % U64, t2 % NANOS);
            late.After(Tai64N((t1 / NANOS + TAI64_BASE) % U64, t1 % NANOS))
            <==> t1 < t2
  {
  }

  /** Stamps keep time order, to the nanosecond, until the seconds wrap. */
  lemma StampsKeepTimeOrder(t1: nat, t2: nat, s1: Stamp, s2: Stamp)
    requires t1 / NANOS + TAI64_BASE < U64 && t2 / NANOS + TAI64_BASE < U64
    requires s1 == StampAt(t1) && s2 == StampAt(t2)
    ensures Parse(s2).After(Parse(s1)) <==> t1 < t2
    ensures LexLess(s1, s2) <==> t1 < t2
  {
    assert Parse(s2).After(Parse(s1)) <==> t1 < t2 by {
      ParseStamp(t1);
      ParseStamp(t2);
      TaiOrder(t1, t2);
    }
    AfterIsByteOrder(s1, s2);
  }

  /** The twelve bytes: seconds since 1970 above 2^62 + 37, then nanoseconds, both
      big-endian. */
  lemma StampBytes(t: nat)
    requires t / 1_000_000_000 < 0xbfff_ffff_ffff_ffdb
    ensures FromBe(StampAt(t)[..8]) == 0x4000_0000_0000_0025 + t / 1_000_000_000
    ensures FromBe(StampAt(t)[8..]) == t % 1_000_000_000
  {
    ParseStamp(t);
  }
}
