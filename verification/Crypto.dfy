/** The cryptography the protocol is built on, as a record of uninterpreted
    functions.  Everything proved elsewhere holds for every such record that
    obeys `Lawful`: opening undoes sealing, Diffie-Hellman commutes, and outputs
    have their fixed lengths. */
module Crypto {
  import opened Common

  type Key = b: Bytes | |b| == 32 witness seq(32, _ => 0)
  type Mac = b: Bytes | |b| == 16 witness seq(16, _ => 0)
  type Nonce = b: Bytes | |b| == 12 witness seq(12, _ => 0)
  type XNonce = b: Bytes | |b| == 24 witness seq(24, _ => 0)
  type Stamp = b: Bytes | |b| == 12 witness seq(12, _ => 0)

  const TAG_SIZE: nat := 16

  datatype Suite = Suite(
    hash: Bytes -> Key,                         // BLAKE2s-256
    hmac: (Bytes, Bytes) -> Key,                // HMAC-BLAKE2s(key, data)
    mac16: (Bytes, Bytes) -> Mac,               // keyed BLAKE2s, 16 bytes
    mac24: (Bytes, Bytes) -> XNonce,            // keyed BLAKE2s, 24 bytes
    pub: Key -> Key,                            // X25519 public key
    dh: (Key, Key) -> Key,                      // X25519(private, public)
    seal: (Key, Nonce, Bytes, Bytes) -> Bytes,  // ChaCha20Poly1305(key, nonce, aad, plaintext)
    open: (Key, Nonce, Bytes, Bytes) -> Option<Bytes>,
    xseal: (Key, XNonce, Bytes, Bytes) -> Bytes,  // XChaCha20Poly1305
    xopen: (Key, XNonce, Bytes, Bytes) -> Option<Bytes>
  ) {
    ghost predicate Lawful() {
      && (forall k, n, a, p :: open(k, n, a, seal(k, n, a, p)) == Some(p))
      && (forall k, n, a, p :: |seal(k, n, a, p)| == |p| + TAG_SIZE)
      && (forall k, n, a, b :: open(k, n, a, b).Some? ==> |open(k, n, a, b).value| + TAG_SIZE == |b|)
      && (forall k, n, a, p :: xopen(k, n, a, xseal(k, n, a, p)) == Some(p))
      && (forall k, n, a, p :: |xseal(k, n, a, p)| == |p| + TAG_SIZE)
      && (forall x, y :: dh(x, pub(y)) == dh(y, pub(x)))
    }

    /** `b2s_hash`: the two inputs are fed one after the other. */
    function Hash2(data1: Bytes, data2: Bytes): Key {
      hash(data1 + data2)
    }

    /** `b2s_kdf1`. */
    function Kdf1(key: Bytes, input: Bytes): Key {
      hmac(hmac(key, input), [1])
    }

    /** `b2s_kdf2`. */
    function Kdf2(key: Bytes, input: Bytes): (Key, Key) {
      var temp := hmac(key, input);
      var out1 := hmac(temp, [1]);
      var out2 := hmac(temp, out1 + [2]);
      (out1, out2)
    }

    /** `b2s_kdf3`. */
    function Kdf3(key: Bytes, input: Bytes): (Key, Key, Key) {
      var temp := hmac(key, input);
      var out1 := hmac(temp, [1]);
      var out2 := hmac(temp, out1 + [2]);
      var out3 := hmac(temp, out2 + [3]);
      (out1, out2, out3)
    }
  }

  /** The nonce of a counter: four zero bytes, then the counter. */
  function CounterNonce(counter: u64): Nonce {
    Zeros(4) + Le(counter, 8)
  }

  /** The laws are consistent: a (worthless) suite obeys them. */
  lemma LawfulSuiteExists() returns (c: Suite)
    ensures c.Lawful()
  {
    var k: Key, m: Mac, n: XNonce := Zeros(32), Zeros(16), Zeros(24);
    var seal := (p: Bytes) => p + Zeros(16);
    var open := (b: Bytes) => if |b| >= 16 then Some(b[..|b| - 16]) else None;
    c := Suite(_ => k, (_, _) => k, (_, _) => m, (_, _) => n, _ => k, (_, _) => k,
               (_, _, _, p) => seal(p), (_, _, _, b) => open(b),
               (_, _, _, p) => seal(p), (_, _, _, b) => open(b));
    assert forall p: Bytes :: (p + Zeros(16))[..|p + Zeros(16)| - 16] == p;
  }
}
