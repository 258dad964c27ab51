/**
  * Symbolic cryptography: fresh ephemeral keys, commutative Diffie-Hellman, a collision-free
  * 48-byte hash split into a mailbox id and a key, and authenticated encryption that opens only
  * under the sealing key.
  */
module Crypto {
  import opened Common

  /** A party is known by its 32-byte Ed25519 public key. */
  type Party = p: seq<byte> | |p| == 32 witness seq(32, _ => 0)

  /** Secret scalars: the long-term identity key and the n-th ephemeral key a party generated. */
  datatype SecretKey = Identity(party: Party) | Ephemeral(party: Party, n: nat)

  datatype PublicKey = PublicKey(secret: SecretKey)

  datatype SharedSecret = SharedSecret(ends: set<SecretKey>)

  /** X25519: both ends reach the same secret from their own scalar and the other's point. */
  function ScalarMult(mine: SecretKey, theirs: PublicKey): SharedSecret {
    SharedSecret({mine, theirs.secret})
  }

  lemma ScalarMultCommutes(x: SecretKey, y: SecretKey)
    ensures ScalarMult(x, PublicKey(y)) == ScalarMult(y, PublicKey(x))
  {
    assert {x, y} == {y, x};
  }

  /** The hash input of one direction; the 48-byte output is taken to determine it. */
  datatype Digest = Digest(secret: SharedSecret, first: PublicKey, second: PublicKey)

  /** The first 16 bytes of a digest. */
  datatype MailboxId = MailboxId(digest: Digest)

  /** The last 32 bytes of a digest. */
  datatype SymmetricKey = SymmetricKey(digest: Digest)

  datatype Derived = Derived(txId: MailboxId, txKey: SymmetricKey, rxId: MailboxId, rxKey: SymmetricKey)

  /** The digest of the direction from the holder of x to the holder of y. */
  function DigestOf(x: SecretKey, y: SecretKey): Digest {
    Digest(ScalarMult(x, PublicKey(y)), PublicKey(x), PublicKey(y))
  }

  function MailboxOf(x: SecretKey, y: SecretKey): MailboxId {
    MailboxId(DigestOf(x, y))
  }

  /**
    * The key schedule of one epoch, from one's own secret and the other side's public key. The
    * two ends of an epoch obtain each other's directions.
    */
  function Derive(mine: SecretKey, theirs: PublicKey): (d: Derived)
    ensures d.txId.digest == d.txKey.digest == DigestOf(mine, theirs.secret)
    ensures d.rxId.digest == d.rxKey.digest == DigestOf(theirs.secret, mine)
  {
    ScalarMultCommutes(mine, theirs.secret);
    var shared := ScalarMult(mine, theirs);
    var tx := Digest(shared, PublicKey(mine), theirs);
    var rx := Digest(shared, theirs, PublicKey(mine));
    Derived(MailboxId(tx), SymmetricKey(tx), MailboxId(rx), SymmetricKey(rx))
  }

  /** Ed25519 signatures over one or two public keys. */
  datatype Signature = Signature(signer: Party, message: seq<PublicKey>)

  /** The id of a text message: the hash of its bytes. */
  datatype MessageId = MessageId(text: seq<byte>)

  datatype Plaintext =
    | Text(data: seq<byte>)
    | RotateRequest(key: PublicKey, signature: Signature)
    | RotateAck(key: PublicKey, signature: Signature)
    | Receipt(id: MessageId)

  /** Frame payloads: the zero bytes of a poll, or a sealed plaintext. */
  datatype Payload = Zeros | Sealed(key: SymmetricKey, plain: Plaintext)

  function Open(key: SymmetricKey, p: Payload): Option<Plaintext> {
    if p.Sealed? && p.key == key then Some(p.plain) else None
  }

  type MailFrame = Frame<MailboxId, Payload>
}
