/** The commit-and-reveal relation: a commitment is the encoded hash of the hash of a key. */
module Multihash {
  import opened Wrappers
  import opened Models

  /** The encoding law of multihashes: decoding an encoded digest gives the digest. */
  ghost predicate Lawful(p: Primitives) {
    forall d :: p.decodeMultihash(p.encodeMultihash(d)) == Some(d)
  }

  predicate IsMultihash(p: Primitives, s: string) {
    p.decodeMultihash(s).Some?
  }

  /** The text is the one encoding that is printed for its digest (two texts can decode to the same bytes). */
  predicate Canonical(p: Primitives, s: string) {
    IsMultihash(p, s) && p.encodeMultihash(p.decodeMultihash(s).value) == s
  }

  function HashThenEncode(p: Primitives, content: string): string {
    p.encodeMultihash(p.digest(content))
  }

  predicate VerifyEncodedMultihashForContent(p: Primitives, content: string, encodedMultihash: string) {
    IsMultihash(p, encodedMultihash) && HashThenEncode(p, content) == encodedMultihash
  }

  /** The processor's check of a key against a commitment compares decoded digests. */
  predicate VerifyDoubleHash(p: Primitives, key: string, commitment: Option<string>) {
    commitment.Some? && p.decodeMultihash(commitment.value) == Some(p.digest(p.digest(key)))
  }

  /** The resolver's index key for a reveal value. */
  function CommitValue(p: Primitives, revealValue: string): Option<string> {
    match p.decodeMultihash(revealValue)
    case None => None
    case Some(hash) => Some(HashThenEncode(p, hash))
  }

  /** A key opens a commitment exactly if the commitment is the index key of the key's reveal value, for canonically
      encoded commitments; a commitment in another encoding is opened by the processor but missed by the index. */
  lemma IndexAgreesWithProcessor(p: Primitives, key: string, revealValue: string, commitment: string)
    requires Lawful(p)
    requires VerifyEncodedMultihashForContent(p, key, revealValue)
    ensures CommitValue(p, revealValue) == Some(commitment) ==> VerifyDoubleHash(p, key, Some(commitment))
    ensures VerifyDoubleHash(p, key, Some(commitment)) ==>
              (CommitValue(p, revealValue) == Some(commitment) <==> Canonical(p, commitment))
  {
    assert p.decodeMultihash(revealValue) == Some(p.digest(key));
  }
}
