/** The cryptographic and encoding libraries as parameters of the model. Nothing is
    assumed about SHA-256 except that a digest has 32 bytes (section 6.2 of FIPS 180-4);
    in particular it is not assumed to be injective. */
module Crypto {
  import opened Bytes

  type Digest = d: Text | |d| == 32 witness Zeros(32)
  type Key = k: Text | |k| == 32 witness Zeros(32)
  type Signature = s: Text | |s| == 64 witness Zeros(64)

  type Hash = Text -> Digest

  datatype Env = Env(
    sha256: Hash,
    encode64: Text -> Text,
    decode64: Text -> Option<Text>,
    publicKey: Key -> Key,
    validKey: Key -> bool,
    sign: (Key, Text) -> Signature,
    verify: (Key, Text, Signature) -> bool)

  /** What the libraries promise: base64 (section 4 of RFC 4648) round-trips, the engine
      in use rejects non-canonical text (section 3.5), 32 bytes take 44 characters, and
      an Ed25519 signature made with a key verifies under its public half
      (sections 5.1.6 and 5.1.7 of RFC 8032). */
  ghost predicate Lawful(e: Env) {
    && (forall b: Text :: e.decode64(e.encode64(b)) == Some(b))
    && (forall t: Text :: e.decode64(t).Some? ==> e.encode64(e.decode64(t).value) == t)
    && (forall k: Key :: |e.encode64(k)| == 44)
    && (forall k: Key :: e.validKey(e.publicKey(k)))
    && (forall k: Key, m: Text :: e.verify(e.publicKey(k), m, e.sign(k, m)))
  }

  function ToyEncode(b: Text): Text { b + Zeros(12) }

  function ToyDecode(t: Text): Option<Text> {
    if |t| >= 12 && t[|t| - 12..] == Zeros(12) then Some(t[..|t| - 12]) else None
  }

  /** The laws contradict neither each other nor the 32-byte digest. */
  lemma LawsAreConsistent()
    ensures exists e: Env :: Lawful(e)
  {
    var digest: Digest := Zeros(32);
    var signature: Signature := Zeros(64);
    var e := Env((t: Text) => digest, (b: Text) => ToyEncode(b), (t: Text) => ToyDecode(t),
                 (k: Key) => k, (k: Key) => true, (k: Key, m: Text) => signature,
                 (k: Key, m: Text, s: Signature) => true);
    forall b: Text ensures e.decode64(e.encode64(b)) == Some(b) {
      Cut(b, Zeros(12));
    }
    forall t: Text | e.decode64(t).Some? ensures e.encode64(e.decode64(t).value) == t {
      assert t == t[..|t| - 12] + t[|t| - 12..];
    }
    assert Lawful(e);
  }

  // ---- Exhibits against a hash function, searched for among given inputs only ----

  /** Two of the given inputs collide. (That some collision exists somewhere is true of
      every 32-byte hash and says nothing; that one is among these inputs does.) */
  ghost predicate CollisionIn(h: Hash, inputs: set<Text>) {
    exists a, b :: a in inputs && b in inputs && a != b && h(a) == h(b)
  }

  /** One of the given inputs has a digest made only of ASCII base16 digits. */
  ghost predicate HexDigestIn(h: Hash, inputs: set<Text>) {
    exists a :: a in inputs && AllHex(h(a))
  }

  /** One of the given inputs is a preimage of the all-zero digest. */
  ghost predicate ZeroPreimageIn(h: Hash, inputs: set<Text>) {
    exists a :: a in inputs && h(a) == Zeros(32)
  }
}
