/** Vocabulary shared by every module. */
module Common {

  datatype Option<+T> = None | Some(value: T)

  const MAX_U64: nat := 0xFFFF_FFFF_FFFF_FFFF

  /** Go's `uint64`: every counter that the durable records carry. */
  type U64 = n: nat | n <= 0xFFFF_FFFF_FFFF_FFFF

  type Byte = b: nat | b < 256
  type Bytes = seq<Byte>

  /** Values that the program only ever compares. */
  type Id = string
  type Pin = string
  type Digest = Bytes

  /** How far a clock may lag behind the creation time of a signed document, in seconds. */
  const CLOCK_SKEW := 300

  // Sizes of what the two sides exchange, in bytes.

  const MAX_INVITATION := 256 * 1024
  const MAX_REQUEST := 256 * 1024
  const MAX_ENCRYPTED_REQUEST := 640 * 1024
  const MAX_BOUND_RESPONSE := 4 * 1024 * 1024

  const DIGEST_SIZE := 32
  const ID_SIZE := 32
  const CAPABILITY_SIZE := 32

  function Pow2(k: nat): (p: nat)
    ensures p >= 1
  {
    if k == 0 then 1 else 2 * Pow2(k - 1)
  }

  predicate Lowercase(t: string) {
    forall k | 0 <= k < |t| :: 'a' <= t[k] <= 'z'
  }

  /** A word that is compared between two people. */
  predicate ComparisonWord(w: string) {
    3 <= |w| <= 8 && Lowercase(w)
  }

  predicate NoNul(t: string) {
    forall k | 0 <= k < |t| :: t[k] != '\0'
  }

  /** Two texts with a NUL between them. */
  function Join(x: string, y: string): string {
    x + ['\0'] + y
  }

  lemma JoinCancels(x: string, y: string, y': string)
    requires Join(x, y) == Join(x, y')
    ensures y == y'
  {
    assert y == Join(x, y)[|x| + 1..] && y' == Join(x, y')[|x| + 1..];
  }

  /** Where the first text holds no NUL, both can be told from their join. */
  lemma JoinSplits(x: string, y: string, x': string, y': string)
    requires NoNul(x) && NoNul(x') && Join(x, y) == Join(x', y')
    ensures x == x' && y == y'
  {
    var a, b := Join(x, y), Join(x', y');
    assert a[|x|] == '\0' && b[|x'|] == '\0';
    assert forall k | 0 <= k < |x| :: a[k] == x[k];
    assert forall k | 0 <= k < |x'| :: b[k] == x'[k];
    assert |x| == |x'|;
    assert x == a[..|x|] && x' == b[..|x'|];
    JoinCancels(x, y, y');
  }
}
