/** SHA-256 as the code uses it: over canonical JSON (`json`) and over plain strings
    (`text`), packages/evidence/src/index.ts. Nothing is assumed of the function but the
    shape of its output. Where a theorem needs collision resistance it says so for the
    finitely many inputs that the computations in question actually hash. */
module Hashing {
  import opened Records

  datatype Hasher = Hasher(json: Value -> string, text: string -> string)

  predicate HexDigit(c: char) { '0' <= c <= '9' || 'a' <= c <= 'f' }

  predicate Hex64(s: string) { |s| == 64 && forall i :: 0 <= i < |s| ==> HexDigit(s[i]) }

  ghost predicate Digests(h: Hasher) {
    (forall v :: Hex64(h.json(v))) && (forall t :: Hex64(h.text(t)))
  }

  /** The previousHash of the first event. */
  const ZEROS: string := "0000000000000000000000000000000000000000000000000000000000000000"

  /** No two of these objects, and no two of these strings, share a digest. */
  ghost predicate CollisionFree(h: Hasher, values: set<Value>, texts: set<string>) {
    && (forall x, y :: x in values && y in values && h.json(x) == h.json(y) ==> x == y)
    && (forall x, y :: x in texts && y in texts && h.text(x) == h.text(y) ==> x == y)
  }
}
