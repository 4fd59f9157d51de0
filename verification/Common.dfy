/** Vocabulary shared by every module: results, error codes, byte strings and
    the fixed-width integer encodings of the wire format. */
module Common {

  datatype Option<+T> = None | Some(value: T)

  datatype Result<+T> = Ok(value: T) | Err(error: WireGuardError)

  datatype WireGuardError =
    | DestinationBufferTooSmall
    | UnexpectedPacket
    | WrongIndex
    | WrongKey
    | WrongTai64nTimestamp
    | InvalidMac
    | InvalidAeadTag
    | InvalidCounter
    | DuplicateCounter
    | InvalidPacket
    | NoCurrentSession
    | ConnectionExpired
    | UnderLoad

  type byte = x: int | 0 <= x < 256
  type Bytes = seq<byte>

  const U32: nat := 0x1_0000_0000
  const U64: nat := 0x1_0000_0000_0000_0000

  type u32 = x: int | 0 <= x < U32
  type u64 = x: int | 0 <= x < U64

  type Octets4 = b: Bytes | |b| == 4 witness seq(4, _ => 0)
  type Octets16 = b: Bytes | |b| == 16 witness seq(16, _ => 0)

  datatype IpAddr = V4(octets4: Octets4) | V6(octets16: Octets16)

  function Zeros(n: nat): (b: Bytes)
    ensures |b| == n
  {
    seq(n, _ => 0)
  }

  function Pow256(w: nat): (p: nat)
    ensures p > 0
  {
    if w == 0 then 1 else 256 * Pow256(w - 1)
  }

  /** `to_le_bytes` for a `w`-byte integer; higher digits are cut off. */
  function Le(n: nat, w: nat): (b: Bytes)
    ensures |b| == w
  {
    if w == 0 then [] else [n % 256] + Le(n / 256, w - 1)
  }

  /** `from_le_bytes`. */
  function FromLe(b: Bytes): (n: nat)
    ensures n < Pow256(|b|)
  {
    if b == [] then 0 else b[0] + 256 * FromLe(b[1..])
  }

  /** `to_be_bytes` for a `w`-byte integer. */
  function Be(n: nat, w: nat): (b: Bytes)
    ensures |b| == w
  {
    if w == 0 then [] else Be(n / 256, w - 1) + [n % 256]
  }

  /** `from_be_bytes`. */
  function FromBe(b: Bytes): (n: nat)
    ensures n < Pow256(|b|)
  {
    if b == [] then 0 else 256 * FromBe(b[..|b| - 1]) + b[|b| - 1]
  }

  /** Byte-string order: the first difference decides. */
  predicate LexLess(a: Bytes, b: Bytes)
    requires |a| == |b|
  {
    a != [] && (a[0] < b[0] || (a[0] == b[0] && LexLess(a[1..], b[1..])))
  }

  lemma {:induction false} LeRoundTrip(n: nat, w: nat)
    requires n < Pow256(w)
    ensures FromLe(Le(n, w)) == n
  {
    if w > 0 {
      LeRoundTrip(n / 256, w - 1);
      assert Le(n, w)[1..] == Le(n / 256, w - 1);
    }
  }

  lemma {:induction false} BeRoundTrip(n: nat, w: nat)
    requires n < Pow256(w)
    ensures FromBe(Be(n, w)) == n
  {
    if w > 0 {
      BeRoundTrip(n / 256, w - 1);
      assert Be(n, w)[..w - 1] == Be(n / 256, w - 1);
    }
  }

  lemma PowersOf256()
    ensures Pow256(1) == 256 && Pow256(2) == 0x1_0000 && Pow256(4) == U32 && Pow256(8) == U64
  {
    assert Pow256(3) == 0x100_0000;
    assert Pow256(5) == 0x100_0000_0000;
    assert Pow256(6) == 0x1_0000_0000_0000;
    assert Pow256(7) == 0x100_0000_0000_0000;
  }

  lemma LeRoundTrip32(n: u32)
    ensures FromLe(Le(n, 4)) == n
  {
    PowersOf256();
    LeRoundTrip(n, 4);
  }

  lemma LeRoundTrip64(n: u64)
    ensures FromLe(Le(n, 8)) == n
  {
    PowersOf256();
    LeRoundTrip(n, 8);
  }

  ghost predicate NoDuplicates<T>(s: seq<T>) {
    forall i, j :: 0 <= i < j < |s| ==> s[i] != s[j]
  }
}
