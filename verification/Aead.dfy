/**
 The authenticated cipher of a suite, as a value: every theorem below holds for
 every cipher with these laws, and the adversary of a run is the one limit that
 Guarded puts on opening.
 */
module Ciphers {
  import opened Results
  import opened ByteStrings

  type Key = Bytes

  datatype Aead = Aead(
    nonceSize: nat,
    overhead: nat,
    // key, nonce, plaintext, associated data
    seal: (Key, Bytes, Bytes, Bytes) -> Bytes,
    // key, nonce, ciphertext, associated data
    open: (Key, Bytes, Bytes, Bytes) -> Option<Bytes>
  )

  /** A ciphertext is longer than its plaintext by the tag, whoever made it. */
  ghost predicate Lengths(a: Aead) {
    && (forall k, n, p, d :: |a.seal(k, n, p, d)| == |p| + a.overhead)
    && (forall k, n, c, d :: a.open(k, n, c, d).Some? ==> |c| == |a.open(k, n, c, d).value| + a.overhead)
  }

  /** What was sealed opens to what it was. */
  ghost predicate Sound(a: Aead) {
    && Lengths(a)
    && forall k, n, p, d :: a.open(k, n, a.seal(k, n, p, d), d) == Some(p)
  }

  /** One call of seal: no forger makes a ciphertext that is not one of these. */
  datatype Sealing = Sealing(key: Key, nonce: Bytes, plain: Bytes, ad: Bytes)

  /** The same cipher when only the recorded sealings exist. */
  function Guarded(a: Aead, log: set<Sealing>): (g: Aead)
    ensures g.nonceSize == a.nonceSize && g.overhead == a.overhead && g.seal == a.seal
  {
    a.(open := (k: Key, n: Bytes, c: Bytes, d: Bytes) =>
         var p := a.open(k, n, c, d);
         if p.Some? && Sealing(k, n, p.value, d) in log && a.seal(k, n, p.value, d) == c then p else None)
  }

  /** Guarding refuses every forgery and no genuine ciphertext. */
  lemma GuardedOpens(a: Aead, log: set<Sealing>, k: Key, n: Bytes, c: Bytes, d: Bytes, p: Bytes)
    requires Sound(a)
    ensures Lengths(Guarded(a, log))
    ensures Guarded(a, log).open(k, n, c, d) == Some(p)
       <==> Sealing(k, n, p, d) in log && c == a.seal(k, n, p, d)
  {}
}
