/**
  The padded plaintext of an enrollment request.
  Source: internal/enrollmentexchange/request_envelope.go, padRequest and unpadRequest.
*/
module Padding {
  import opened Common
  import opened Framing

  type Sum = d: Bytes | |d| == DIGEST_SIZE witness seq(DIGEST_SIZE, _ => 0)

  /** SHA-256 as some total function; nothing below needs it to be injective. */
  type Sha = Bytes -> Sum

  const MAGIC_TEXT := "OwnTransit padded enrollment request v1"

  function Magic(): (b: Bytes)
    ensures |b| == 40
  {
    NulTerminated(MAGIC_TEXT)
  }

  const HEADER_SIZE := 40 + 4 + DIGEST_SIZE

  function Classes(): seq<nat> {
    [64 * 1024, 128 * 1024, 256 * 1024, 512 * 1024]
  }

  /** The smallest class that holds `minimum` bytes. */
  predicate SmallestClass(minimum: nat, class_: nat) {
    class_ in Classes() && minimum <= class_ && forall c <- Classes() :: minimum <= c ==> class_ <= c
  }

  /** Magic, size, digest, and the request itself. */
  function Header(sha: Sha, request: Bytes): Bytes {
    Magic() + BigEndian(|request|, 4) + sha(request) + request
  }

  /** `padRequest`: `random` is what the random source fills the rest with. */
  method PadRequest(sha: Sha, request: Bytes, random: nat -> Byte) returns (r: Option<Bytes>)
    ensures r.None? <==> HEADER_SIZE + |request| > 512 * 1024
    ensures r.Some? ==>
      && SmallestClass(HEADER_SIZE + |request|, |r.value|)
      && r.value == Header(sha, request) + seq(|r.value| - HEADER_SIZE - |request|, k requires 0 <= k => random(k))
  {
    var minimum := HEADER_SIZE + |request|;
    var class_ := 0;
    for i := 0 to 4
      invariant class_ == 0
      invariant forall j | 0 <= j < i :: minimum > Classes()[j]
    {
      if minimum <= Classes()[i] {
        class_ := Classes()[i];
        break;
      }
    }
    if class_ == 0 {
      assert Classes()[3] == 512 * 1024;
      return None;
    }
    var plaintext := new Byte[class_];
    var offset := Extend(plaintext, 0, Magic(), []);
    offset := Extend(plaintext, offset, BigEndian(|request|, 4), Magic());
    offset := Extend(plaintext, offset, sha(request), Magic() + BigEndian(|request|, 4));
    offset := Extend(plaintext, offset, request, Magic() + BigEndian(|request|, 4) + sha(request));
    offset := Extend(plaintext, offset, seq(class_ - offset, k requires 0 <= k => random(k)), Header(sha, request));
    assert plaintext[..] == plaintext[..offset];
    return Some(plaintext[..]);
  }

  /** `unpadRequest`. */
  function Unpad(sha: Sha, plaintext: Bytes): Option<Bytes> {
    if |plaintext| !in Classes() || plaintext[..40] != Magic() then None
    else
      var size := Number(plaintext[40..44]);
      if size == 0 || size > MAX_REQUEST || size > |plaintext| - HEADER_SIZE then None
      else
        var request := plaintext[HEADER_SIZE..HEADER_SIZE + size];
        if sha(request) != plaintext[44..HEADER_SIZE] then None else Some(request)
  }

  /** Whatever the padding, unpadding gives back the exact request. */
  lemma UnpadUndoesPad(sha: Sha, request: Bytes, padding: Bytes)
    requires 0 < |request| <= MAX_REQUEST && |Header(sha, request) + padding| in Classes()
    ensures Unpad(sha, Header(sha, request) + padding) == Some(request)
  {
    var p := Header(sha, request) + padding;
    assert p[..40] == Magic();
    assert p[40..44] == BigEndian(|request|, 4);
    Widths();
    NumberOfBigEndian(|request|, 4);
    assert p[44..HEADER_SIZE] == sha(request);
    assert p[HEADER_SIZE..HEADER_SIZE + |request|] == request;
  }

  /** Conversely an accepted plaintext starts with exactly the header of the request it yields;
      only its class and its padding are free. */
  lemma AcceptedPlaintext(sha: Sha, plaintext: Bytes)
    requires Unpad(sha, plaintext).Some?
    ensures var request := Unpad(sha, plaintext).value;
      && 0 < |request| <= MAX_REQUEST && HEADER_SIZE + |request| <= |plaintext|
      && plaintext[..HEADER_SIZE + |request|] == Header(sha, request)
  {
    var request := Unpad(sha, plaintext).value;
    BigEndianOfNumber(plaintext[40..44]);
    assert plaintext[..HEADER_SIZE + |request|] ==
           plaintext[..40] + plaintext[40..44] + plaintext[44..HEADER_SIZE] + plaintext[HEADER_SIZE..HEADER_SIZE + |request|];
  }
}
