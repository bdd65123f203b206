/**
  Mailbox capabilities: canonical unpadded base64url text of 256 bits (RFC 4648, sections
  3.2, 3.5 and 5).
  Source: internal/enrollmentexchange/invitation.go, parseMailboxCapability.
*/
module Capability {
  import opened Common

  const CAPABILITY_TEXT := 43

  type Sextet = n: nat | n < 64

  // ------------------------------------------------------------- bytes and sextets

  // Neighbouring bytes a, b to sextets, and neighbouring sextets s, t to bytes.

  function FirstSextet(a: Byte): Sextet { a / 4 }

  function SecondSextet(a: Byte, b: Byte): Sextet { a % 4 * 16 + b / 16 }

  function ThirdSextet(b: Byte, c: Byte): Sextet { b % 16 * 4 + c / 64 }

  function FourthSextet(c: Byte): Sextet { c % 64 }

  function FirstByte(s: Sextet, t: Sextet): Byte { s * 4 + t / 16 }

  function SecondByte(t: Sextet, u: Sextet): Byte { t % 16 * 16 + u / 4 }

  function ThirdByte(u: Sextet, v: Sextet): Byte { u % 4 * 64 + v }

  lemma BytesFromSextets(a: Byte, b: Byte, c: Byte)
    ensures FirstByte(FirstSextet(a), SecondSextet(a, b)) == a
    ensures SecondByte(SecondSextet(a, b), ThirdSextet(b, c)) == b
    ensures ThirdByte(ThirdSextet(b, c), FourthSextet(c)) == c
  {
  }

  lemma SextetsFromBytes(s: Sextet, t: Sextet, u: Sextet, v: Sextet)
    ensures FirstSextet(FirstByte(s, t)) == s
    ensures SecondSextet(FirstByte(s, t), SecondByte(t, u)) == t
    ensures ThirdSextet(SecondByte(t, u), ThirdByte(u, v)) == u
    ensures FourthSextet(ThirdByte(u, v)) == v
  {
  }

  /** Three bytes to four sextets; one or two bytes left over to two or three. */
  function Sextets(d: Bytes): seq<Sextet> {
    if |d| == 0 then []
    else if |d| == 1 then [FirstSextet(d[0]), SecondSextet(d[0], 0)]
    else if |d| == 2 then [FirstSextet(d[0]), SecondSextet(d[0], d[1]), ThirdSextet(d[1], 0)]
    else [FirstSextet(d[0]), SecondSextet(d[0], d[1]), ThirdSextet(d[1], d[2]), FourthSextet(d[2])] + Sextets(d[3..])
  }

  /** The bits of a last sextet that no byte uses are ignored. */
  function Decoded(q: seq<Sextet>): Option<Bytes> {
    if |q| == 0 then Some([])
    else if |q| == 1 then None
    else if |q| == 2 then Some([FirstByte(q[0], q[1])])
    else if |q| == 3 then Some([FirstByte(q[0], q[1]), SecondByte(q[1], q[2])])
    else
      var rest := Decoded(q[4..]);
      if rest.None? then None
      else Some([FirstByte(q[0], q[1]), SecondByte(q[1], q[2]), ThirdByte(q[2], q[3])] + rest.value)
  }

  function SextetGroup(a: Byte, b: Byte, c: Byte): seq<Sextet> {
    [FirstSextet(a), SecondSextet(a, b), ThirdSextet(b, c), FourthSextet(c)]
  }

  lemma DecodedGroup(a: Byte, b: Byte, c: Byte, q: seq<Sextet>)
    requires Decoded(q).Some?
    ensures Decoded(SextetGroup(a, b, c) + q) == Some([a, b, c] + Decoded(q).value)
  {
    assert (SextetGroup(a, b, c) + q)[4..] == q;
    BytesFromSextets(a, b, c);
  }

  lemma DecodedPair(s: Sextet, t: Sextet)
    ensures Decoded([s, t]) == Some([FirstByte(s, t)])
  {
  }

  lemma DecodedTriple(s: Sextet, t: Sextet, u: Sextet)
    ensures Decoded([s, t, u]) == Some([FirstByte(s, t), SecondByte(t, u)])
  {
  }

  lemma DecodedOne(a: Byte)
    ensures Decoded([FirstSextet(a), SecondSextet(a, 0)]) == Some([a])
  {
    DecodedPair(FirstSextet(a), SecondSextet(a, 0));
    BytesFromSextets(a, 0, 0);
  }

  lemma DecodedTwo(a: Byte, b: Byte)
    ensures Decoded([FirstSextet(a), SecondSextet(a, b), ThirdSextet(b, 0)]) == Some([a, b])
  {
    DecodedTriple(FirstSextet(a), SecondSextet(a, b), ThirdSextet(b, 0));
    BytesFromSextets(a, b, 0);
  }

  lemma {:induction false} DecodingUndoesSextets(d: Bytes)
    ensures Decoded(Sextets(d)) == Some(d)
  {
    if |d| == 1 {
      DecodedOne(d[0]);
      assert d == [d[0]];
    } else if |d| == 2 {
      DecodedTwo(d[0], d[1]);
      assert d == [d[0], d[1]];
    } else if |d| >= 3 {
      DecodingUndoesSextets(d[3..]);
      DecodedGroup(d[0], d[1], d[2], Sextets(d[3..]));
      assert Sextets(d) == SextetGroup(d[0], d[1], d[2]) + Sextets(d[3..]);
      assert d == [d[0], d[1], d[2]] + d[3..];
    }
  }

  lemma {:induction false} SextetCount(d: Bytes)
    ensures |Sextets(d)| == (|d| * 4 + 2) / 3
  {
    if |d| >= 3 {
      SextetCount(d[3..]);
    }
  }

  /** The bits of the last sextet that no byte uses. */
  predicate SpareBitsClear(q: seq<Sextet>) {
    if |q| == 2 then q[1] % 16 == 0
    else if |q| == 3 then q[2] % 4 == 0
    else if |q| >= 4 then SpareBitsClear(q[4..])
    else true
  }

  function ByteGroup(q: seq<Sextet>): Bytes
    requires |q| >= 4
  {
    [FirstByte(q[0], q[1]), SecondByte(q[1], q[2]), ThirdByte(q[2], q[3])]
  }

  lemma SextetsOfGroup(q: seq<Sextet>, rest: Bytes)
    requires |q| >= 4
    ensures Sextets(ByteGroup(q) + rest) == q[..4] + Sextets(rest)
  {
    var d := ByteGroup(q) + rest;
    SextetsFromBytes(q[0], q[1], q[2], q[3]);
    assert d[3..] == rest;
    assert Sextets(d) == SextetGroup(d[0], d[1], d[2]) + Sextets(rest);
    assert q[..4] == [q[0], q[1], q[2], q[3]];
  }

  lemma LastSextets(s: Sextet, t: Sextet, u: Sextet)
    ensures SecondSextet(FirstByte(s, t), 0) == t <==> t % 16 == 0
    ensures ThirdSextet(SecondByte(t, u), 0) == u <==> u % 4 == 0
  {
  }

  lemma SextetsOfTwo(s: Sextet, t: Sextet)
    ensures Sextets([FirstByte(s, t)]) == [s, t] <==> t % 16 == 0
  {
    LastSextets(s, t, 0);
    SextetsFromBytes(s, t, 0, 0);
    assert Sextets([FirstByte(s, t)]) == [s, SecondSextet(FirstByte(s, t), 0)];
  }

  lemma SextetsOfThree(s: Sextet, t: Sextet, u: Sextet)
    ensures Sextets([FirstByte(s, t), SecondByte(t, u)]) == [s, t, u] <==> u % 4 == 0
  {
    LastSextets(s, t, u);
    SextetsFromBytes(s, t, u, 0);
    assert Sextets([FirstByte(s, t), SecondByte(t, u)]) == [s, t, ThirdSextet(SecondByte(t, u), 0)];
  }

  lemma SextetsOfPair(s: Sextet, t: Sextet)
    ensures Decoded([s, t]).Some? && (Sextets(Decoded([s, t]).value) == [s, t] <==> SpareBitsClear([s, t]))
  {
    DecodedPair(s, t);
    SextetsOfTwo(s, t);
    assert [s, t][1] == t;
  }

  lemma SextetsOfTriple(s: Sextet, t: Sextet, u: Sextet)
    ensures Decoded([s, t, u]).Some? && (Sextets(Decoded([s, t, u]).value) == [s, t, u] <==> SpareBitsClear([s, t, u]))
  {
    DecodedTriple(s, t, u);
    SextetsOfThree(s, t, u);
    assert [s, t, u][2] == u;
  }

  lemma {:induction false} SextetsUndoDecoding(q: seq<Sextet>)
    requires Decoded(q).Some?
    ensures Sextets(Decoded(q).value) == q <==> SpareBitsClear(q)
  {
    if |q| == 2 {
      assert q == [q[0], q[1]];
      SextetsOfPair(q[0], q[1]);
    } else if |q| == 3 {
      assert q == [q[0], q[1], q[2]];
      SextetsOfTriple(q[0], q[1], q[2]);
    } else if |q| >= 4 {
      SextetsUndoDecoding(q[4..]);
      var rest := Decoded(q[4..]).value;
      SextetsOfGroup(q, rest);
      assert Decoded(q).value == ByteGroup(q) + rest;
      assert q == q[..4] + q[4..];
      assert (q[..4] + Sextets(rest))[4..] == Sextets(rest);
    }
  }

  lemma GroupCount(n: nat)
    requires n >= 4
    ensures (n - 4) * 3 / 4 + 3 == n * 3 / 4 && (n - 4) % 4 == n % 4
  {
  }

  lemma {:induction false} DecodedCount(q: seq<Sextet>)
    ensures Decoded(q).Some? <==> |q| % 4 != 1
    ensures Decoded(q).Some? ==> |Decoded(q).value| == |q| * 3 / 4
  {
    if |q| >= 4 {
      GroupCount(|q|);
      DecodedCount(q[4..]);
      assert |q[4..]| == |q| - 4;
    }
  }

  lemma {:induction false} SpareBitsAreLast(q: seq<Sextet>)
    requires |q| % 4 == 3
    ensures SpareBitsClear(q) <==> q[|q| - 1] % 4 == 0
  {
    if |q| > 3 {
      GroupCount(|q|);
      SpareBitsAreLast(q[4..]);
      assert q[4..][|q| - 5] == q[|q| - 1];
    }
  }

  /** 32 bytes take 43 sextets, the last of them with clear spare bits. */
  lemma SextetsOfCapability(d: Bytes)
    requires |d| == CAPABILITY_SIZE
    ensures |Sextets(d)| == CAPABILITY_TEXT && Sextets(d)[CAPABILITY_TEXT - 1] % 4 == 0
  {
    var q := Sextets(d);
    SextetCount(d);
    DecodingUndoesSextets(d);
    SextetsUndoDecoding(q);
    SpareBitsAreLast(q);
  }

  /** And 43 such sextets are 32 bytes. */
  lemma CapabilityOfSextets(q: seq<Sextet>)
    requires |q| == CAPABILITY_TEXT && q[CAPABILITY_TEXT - 1] % 4 == 0
    ensures Decoded(q).Some? && |Decoded(q).value| == CAPABILITY_SIZE && Sextets(Decoded(q).value) == q
  {
    DecodedCount(q);
    SpareBitsAreLast(q);
    SextetsUndoDecoding(q);
  }

  // -------------------------------------------------------------- sextets and text

  predicate IsDigit(c: char) {
    'A' <= c <= 'Z' || 'a' <= c <= 'z' || '0' <= c <= '9' || c == '-' || c == '_'
  }

  function Digit(v: Sextet): (c: char)
    ensures IsDigit(c) && Value(c) == v
  {
    if v < 26 then 'A' + v as char
    else if v < 52 then 'a' + (v - 26) as char
    else if v < 62 then '0' + (v - 52) as char
    else if v == 62 then '-' else '_'
  }

  function Value(c: char): (v: Sextet)
    requires IsDigit(c)
  {
    if 'A' <= c <= 'Z' then (c - 'A') as nat
    else if 'a' <= c <= 'z' then (c - 'a') as nat + 26
    else if '0' <= c <= '9' then (c - '0') as nat + 52
    else if c == '-' then 62 else 63
  }

  predicate AllDigits(t: string) {
    forall k | 0 <= k < |t| :: IsDigit(t[k])
  }

  function Digits(q: seq<Sextet>): string {
    seq(|q|, k requires 0 <= k < |q| => Digit(q[k]))
  }

  function Values(t: string): seq<Sextet>
    requires AllDigits(t)
  {
    seq(|t|, k requires 0 <= k < |t| => Value(t[k]))
  }

  lemma DigitsAndValues(q: seq<Sextet>, t: string)
    ensures AllDigits(Digits(q)) && Values(Digits(q)) == q
    ensures AllDigits(t) ==> Digits(Values(t)) == t
  {
    if AllDigits(t) {
      forall k | 0 <= k < |t|
        ensures Digit(Value(t[k])) == t[k]
      {
        assert IsDigit(t[k]);
      }
    }
  }

  function Encode(d: Bytes): string {
    Digits(Sextets(d))
  }

  /** The library decoder drops line breaks. */
  function StripBreaks(t: string): string {
    if t == "" then ""
    else if t[0] == '\r' || t[0] == '\n' then StripBreaks(t[1..])
    else [t[0]] + StripBreaks(t[1..])
  }

  function Decode(t: string): Option<Bytes> {
    var u := StripBreaks(t);
    if AllDigits(u) then Decoded(Values(u)) else None
  }

  /** `parseMailboxCapability`. */
  function Parse(t: string): Option<Bytes> {
    var d := Decode(t);
    if d.Some? && |d.value| == CAPABILITY_SIZE && Encode(d.value) == t then d else None
  }

  lemma {:induction false} StripKeepsDigits(t: string)
    requires AllDigits(t)
    ensures StripBreaks(t) == t
  {
    if t != "" {
      assert IsDigit(t[0]);
      StripKeepsDigits(t[1..]);
    }
  }

  /** 43 digits whose two spare bits are zero. */
  predicate Canonical(t: string) {
    |t| == CAPABILITY_TEXT && AllDigits(t) && Value(t[CAPABILITY_TEXT - 1]) % 4 == 0
  }

  lemma EncodingsAreCanonical(d: Bytes)
    requires |d| == CAPABILITY_SIZE
    ensures Canonical(Encode(d))
  {
    SextetsOfCapability(d);
    DigitsAndValues(Sextets(d), "");
    assert Values(Encode(d))[CAPABILITY_TEXT - 1] == Sextets(d)[CAPABILITY_TEXT - 1];
  }

  lemma CanonicalTextsDecode(t: string)
    requires Canonical(t)
    ensures Decode(t).Some? && |Decode(t).value| == CAPABILITY_SIZE && Encode(Decode(t).value) == t
  {
    StripKeepsDigits(t);
    DigitsAndValues([], t);
    assert Values(t)[CAPABILITY_TEXT - 1] == Value(t[CAPABILITY_TEXT - 1]);
    CapabilityOfSextets(Values(t));
  }

  /** Exactly the canonical texts are accepted. No line break, padding or alias of a capability is. */
  lemma AcceptedTexts(t: string)
    ensures Parse(t).Some? <==> Canonical(t)
  {
    if Parse(t).Some? {
      EncodingsAreCanonical(Parse(t).value);
    }
    if Canonical(t) {
      CanonicalTextsDecode(t);
    }
  }

  /** Text and bytes of a capability determine each other. */
  lemma ParseIsBijective(d: Bytes, t: string, u: string)
    requires |d| == CAPABILITY_SIZE
    ensures Parse(Encode(d)) == Some(d)
    ensures Parse(t).Some? && Parse(t) == Parse(u) ==> t == u
  {
    DecodingUndoesSextets(d);
    DigitsAndValues(Sextets(d), t);
    StripKeepsDigits(Encode(d));
  }
}
