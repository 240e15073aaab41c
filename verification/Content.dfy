/** Byte strings, identities, and the two hash functions.

    BLAKE3 and SHA-256 are never interpreted: they are the two fields of a `Hashes` value that
    every member takes as a parameter, so each statement holds for all hash functions. Where byte
    equality is concluded from digest equality, injectivity is an explicit hypothesis. */
module Content {

  newtype byte = b: int | 0 <= b < 256

  type Bytes = seq<byte>

  /** BLAKE3 digest of one chunk's bytes. */
  datatype ChunkId = ChunkId(digest: nat)

  /** SHA-256 digest of one whole object. */
  datatype Oid = Oid(digest: nat)

  datatype Hashes = Hashes(blake3: Bytes -> ChunkId, sha256: Bytes -> Oid)

  ghost predicate InjectiveBlake3(h: Hashes) {
    forall a: Bytes, b: Bytes :: h.blake3(a) == h.blake3(b) ==> a == b
  }

  ghost predicate InjectiveSha256(h: Hashes) {
    forall a: Bytes, b: Bytes :: h.sha256(a) == h.sha256(b) ==> a == b
  }

  datatype Option<+T> = None | Some(value: T)

  /** The bytes of all pieces, in order. */
  function Concat(pieces: seq<Bytes>): (all: Bytes) {
    if pieces == [] then [] else Concat(pieces[..|pieces| - 1]) + pieces[|pieces| - 1]
  }

  lemma ConcatSnoc(pieces: seq<Bytes>, piece: Bytes)
    ensures Concat(pieces + [piece]) == Concat(pieces) + piece
  {
    assert (pieces + [piece])[..|pieces|] == pieces;
  }

  lemma {:induction false} ConcatJoin(left: seq<Bytes>, right: seq<Bytes>)
    ensures Concat(left + right) == Concat(left) + Concat(right)
  {
    if right == [] {
      assert left + right == left;
    } else {
      var init, last := right[..|right| - 1], right[|right| - 1];
      assert left + right == (left + init) + [last];
      ConcatSnoc(left + init, last);
      ConcatJoin(left, init);
    }
  }
}
