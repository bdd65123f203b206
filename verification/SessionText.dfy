/**
  The durable text of a target session: one line of canonical JSON (RFC 8259) with fixed members,
  bytes in base64 (RFC 4648, section 4), digests in hexadecimal.
  Source: internal/enrollmentexchange/session.go, Encode and ParseTargetSession.
*/
module SessionText {
  import opened Common
  import B = Capability
  import X = ExchangeSession

  const MAX_SESSION := 8 * 1024 * 1024

  // ------------------------------------------------------------------------- values

  predicate Without(c: char, t: string) {
    forall k | 0 <= k < |t| :: t[k] != c
  }

  /** Standard base64 differs from the URL alphabet in its last two digits. */
  function StandardDigit(v: B.Sextet): char {
    if v == 62 then '+' else if v == 63 then '/' else B.Digit(v)
  }

  function Unpadded(q: seq<B.Sextet>): string {
    seq(|q|, k requires 0 <= k < |q| => StandardDigit(q[k]))
  }

  function Padding(n: nat): string {
    if n % 3 == 1 then "==" else if n % 3 == 2 then "=" else ""
  }

  function Base64(d: Bytes): string {
    Unpadded(B.Sextets(d)) + Padding(|d|)
  }

  lemma Base64Length(d: Bytes)
    ensures |Base64(d)| == (|d| + 2) / 3 * 4
  {
    B.SextetCount(d);
  }

  lemma StandardDigitIsExact(v: B.Sextet, w: B.Sextet)
    ensures StandardDigit(v) != '=' && StandardDigit(v) != '"'
    ensures StandardDigit(v) == StandardDigit(w) ==> v == w
  {
    assert B.Value(B.Digit(v)) == v && B.Value(B.Digit(w)) == w;
    assert StandardDigit(v) == '/' ==> v == 63;
  }

  lemma UnpaddedIsExact(p: seq<B.Sextet>, q: seq<B.Sextet>)
    requires Unpadded(p) == Unpadded(q)
    ensures p == q
  {
    assert |p| == |Unpadded(p)| == |q|;
    forall k | 0 <= k < |p|
      ensures p[k] == q[k]
    {
      assert Unpadded(p)[k] == StandardDigit(p[k]) && Unpadded(q)[k] == StandardDigit(q[k]);
      StandardDigitIsExact(p[k], q[k]);
    }
  }

  function Strip(t: string): string {
    if t != "" && t[|t| - 1] == '=' then Strip(t[..|t| - 1]) else t
  }

  lemma StripUndoesPadding(x: string, n: nat)
    requires Without('=', x)
    ensures Strip(x + Padding(n)) == x
  {
    assert Strip(x) == x;
    assert (x + "=")[..|x|] == x;
    assert (x + "==")[..|x| + 1] == x + "=";
    assert x + "" == x;
  }

  lemma Base64IsExact(d: Bytes, e: Bytes)
    requires Base64(d) == Base64(e)
    ensures d == e
  {
    var p, q := B.Sextets(d), B.Sextets(e);
    forall k | 0 <= k < |p|
      ensures Unpadded(p)[k] != '='
    {
      StandardDigitIsExact(p[k], p[k]);
    }
    forall k | 0 <= k < |q|
      ensures Unpadded(q)[k] != '='
    {
      StandardDigitIsExact(q[k], q[k]);
    }
    StripUndoesPadding(Unpadded(p), |d|);
    StripUndoesPadding(Unpadded(q), |e|);
    UnpaddedIsExact(p, q);
    B.DecodingUndoesSextets(d);
    B.DecodingUndoesSextets(e);
  }

  function HexDigit(n: nat): char
    requires n < 16
  {
    if n < 10 then '0' + n as char else 'a' + (n - 10) as char
  }

  function Hex(d: Bytes): string {
    if d == [] then "" else [HexDigit(d[0] / 16), HexDigit(d[0] % 16)] + Hex(d[1..])
  }

  lemma {:induction false} HexIsExact(d: Bytes, e: Bytes)
    requires |d| == |e| && Hex(d) == Hex(e)
    ensures d == e
  {
    if d != [] {
      assert Hex(d)[0] == HexDigit(d[0] / 16) && Hex(e)[0] == HexDigit(e[0] / 16);
      assert Hex(d)[1] == HexDigit(d[0] % 16) && Hex(e)[1] == HexDigit(e[0] % 16);
      assert Hex(d)[2..] == Hex(d[1..]) && Hex(e)[2..] == Hex(e[1..]);
      HexIsExact(d[1..], e[1..]);
      assert d == [d[0]] + d[1..] && e == [e[0]] + e[1..];
    }
  }

  function DecimalDigit(n: nat): char
    requires n < 10
  {
    '0' + n as char
  }

  function Decimal(n: nat): (t: string)
    ensures t != ""
  {
    if n < 10 then [DecimalDigit(n)] else Decimal(n / 10) + [DecimalDigit(n % 10)]
  }

  lemma {:induction false} DecimalIsExact(m: nat, n: nat)
    requires Decimal(m) == Decimal(n)
    ensures m == n
  {
    var s, t := Decimal(m), Decimal(n);
    assert s[|s| - 1] == DecimalDigit(m % 10) && t[|t| - 1] == DecimalDigit(n % 10);
    if m >= 10 && n >= 10 {
      assert s[..|s| - 1] == Decimal(m / 10) && t[..|t| - 1] == Decimal(n / 10);
      DecimalIsExact(m / 10, n / 10);
    }
  }

  lemma {:induction false} DecimalLength(n: nat, k: nat)
    requires n < Pow10(k) && k > 0
    ensures 0 < |Decimal(n)| <= k && Without(',', Decimal(n))
  {
    if n >= 10 {
      DecimalLength(n / 10, k - 1);
    }
  }

  lemma U64HasTwentyDigits()
    ensures MAX_U64 < Pow10(20)
  {
    assert Pow10(2) == 100;
    assert Pow10(4) == 10_000;
    assert Pow10(6) == 1_000_000;
    assert Pow10(8) == 100_000_000;
    assert Pow10(10) == 10_000_000_000;
    assert Pow10(12) == 1_000_000_000_000;
    assert Pow10(14) == 100_000_000_000_000;
    assert Pow10(16) == 10_000_000_000_000_000;
    assert Pow10(18) == 1_000_000_000_000_000_000;
  }

  function Pow10(k: nat): nat {
    if k == 0 then 1 else 10 * Pow10(k - 1)
  }

  // ------------------------------------------------------------------------ members

  datatype Member = Member(name: string, value: string)
  {
    predicate Plain() {
      Without('"', name) && Without('"', value)
    }
  }

  /** Further members, each with its comma, and the end of the line. */
  function Members(ms: seq<Member>): string {
    if ms == [] then "}\n" else ",\"" + (ms[0].name + ("\":\"" + (ms[0].value + ("\"" + Members(ms[1..])))))
  }

  lemma SplitsAt(c: char, x: string, y: string, x': string, y': string)
    requires Without(c, x) && Without(c, x') && y != "" && y' != "" && y[0] == y'[0] == c
    requires x + y == x' + y'
    ensures x == x' && y == y'
  {
    var s, t := x + y, x' + y';
    assert s[|x|] == c && t[|x'|] == c;
    assert forall k | 0 <= k < |x| :: s[k] == x[k];
    assert forall k | 0 <= k < |x'| :: t[k] == x'[k];
    assert |x| == |x'|;
    assert x == s[..|x|] && x' == t[..|x|];
    assert y == s[|x|..] && y' == t[|x|..];
  }

  lemma {:induction false} MembersAreExact(ms: seq<Member>, ns: seq<Member>)
    requires Members(ms) == Members(ns)
    requires (forall m <- ms :: m.Plain()) && (forall n <- ns :: n.Plain())
    ensures ms == ns
  {
    assert Members(ms)[0] == Members(ns)[0];
    if ms != [] && ns != [] {
      var rest, rest' := "\"" + Members(ms[1..]), "\"" + Members(ns[1..]);
      var values, values' := "\":\"" + (ms[0].value + rest), "\":\"" + (ns[0].value + rest');
      assert ms[0].Plain() && ns[0].Plain();
      assert Members(ms)[2..] == ms[0].name + values && Members(ns)[2..] == ns[0].name + values';
      SplitsAt('"', ms[0].name, values, ns[0].name, values');
      assert values[3..] == ms[0].value + rest && values'[3..] == ns[0].value + rest';
      SplitsAt('"', ms[0].value, rest, ns[0].value, rest');
      assert rest[1..] == Members(ms[1..]) && rest'[1..] == Members(ns[1..]);
      MembersAreExact(ms[1..], ns[1..]);
      assert ms == [ms[0]] + ms[1..] && ns == [ns[0]] + ns[1..];
    }
  }

  // ------------------------------------------------------------------------ the text

  /** The fields of a session as they are stored. */
  datatype Saved = Saved(
    generation: U64, phase: X.Phase, invitation: Bytes, request: Bytes, encrypted: Bytes,
    invitationSha: Digest, requestSha: Digest, encryptedSha: Digest, transcriptSha: Digest,
    confirmed: Option<Digest>, response: Option<(Digest, Bytes)>)
  {
    /** The limits under which its bytes were taken, and the size of its digests. */
    predicate Fits() {
      && 0 < |invitation| <= MAX_INVITATION && 0 < |request| <= MAX_REQUEST && 0 < |encrypted| <= MAX_ENCRYPTED_REQUEST
      && |invitationSha| == |requestSha| == |encryptedSha| == |transcriptSha| == DIGEST_SIZE
      && (confirmed.Some? ==> |confirmed.value| == DIGEST_SIZE)
      && (response.Some? ==> |response.value.0| == DIGEST_SIZE && 0 < |response.value.1| <= MAX_BOUND_RESPONSE)
    }
  }

  datatype Key =
    | PhaseKey
    | InvitationKey
    | RequestKey
    | EncryptedKey
    | InvitationShaKey
    | RequestShaKey
    | EncryptedShaKey
    | TranscriptShaKey
    | ConfirmedKey
    | ResponseShaKey
    | ResponseKey

  function Name(k: Key): string {
    match k
    case PhaseKey => "phase"
    case InvitationKey => "invitation"
    case RequestKey => "signed_request"
    case EncryptedKey => "encrypted_request"
    case InvitationShaKey => "invitation_sha256"
    case RequestShaKey => "request_sha256"
    case EncryptedShaKey => "encrypted_request_sha256"
    case TranscriptShaKey => "transcript_sha256"
    case ConfirmedKey => "confirmed_transcript_sha256"
    case ResponseShaKey => "response_sha256"
    case ResponseKey => "bound_response"
  }

  function PhaseName(p: X.Phase): string {
    match p
    case PendingComparison => "pending-comparison"
    case TranscriptConfirmed => "transcript-confirmed"
    case ResponseVerified => "response-verified"
    case Applied => "applied-not-ready"
    case Ready => "ready"
    case Cancelled => "cancelled"
  }

  function Start(): string {
    "{\"schema\":\"owntransit.enrollment-target-session.v1\",\"generation\":"
  }

  function Fixed(v: Saved): seq<Member> {
    [Member(Name(PhaseKey), PhaseName(v.phase)),
     Member(Name(InvitationKey), Base64(v.invitation)),
     Member(Name(RequestKey), Base64(v.request)),
     Member(Name(EncryptedKey), Base64(v.encrypted)),
     Member(Name(InvitationShaKey), Hex(v.invitationSha)),
     Member(Name(RequestShaKey), Hex(v.requestSha)),
     Member(Name(EncryptedShaKey), Hex(v.encryptedSha)),
     Member(Name(TranscriptShaKey), Hex(v.transcriptSha))]
  }

  /** Members that are left out where there is nothing to say. */
  function Optional(v: Saved): seq<Member> {
    (if v.confirmed.Some? then [Member(Name(ConfirmedKey), Hex(v.confirmed.value))] else []) +
    (if v.response.Some? then
       [Member(Name(ResponseShaKey), Hex(v.response.value.0)), Member(Name(ResponseKey), Base64(v.response.value.1))]
     else [])
  }

  function Text(v: Saved): string {
    Start() + (Decimal(v.generation) + Members(Fixed(v) + Optional(v)))
  }

  // -------------------------------------------------------------------- what it means

  lemma Base64IsPlain(d: Bytes)
    ensures Without('"', Base64(d))
  {
    var q := B.Sextets(d);
    forall k | 0 <= k < |q|
      ensures Unpadded(q)[k] != '"'
    {
      StandardDigitIsExact(q[k], q[k]);
    }
  }

  lemma {:induction false} HexLength(d: Bytes)
    ensures |Hex(d)| == 2 * |d| && Without('"', Hex(d))
  {
    if d != [] {
      HexLength(d[1..]);
    }
  }

  lemma PhaseNameIsPlain(p: X.Phase)
    ensures Without('"', PhaseName(p)) && |PhaseName(p)| <= 20
  {
  }

  lemma DigestNameIsPlain(k: Key)
    requires k.InvitationShaKey? || k.RequestShaKey? || k.EncryptedShaKey? || k.TranscriptShaKey? || k.ConfirmedKey?
    ensures Without('"', Name(k)) && |Name(k)| <= 27
  {
  }

  lemma OtherNameIsPlain(k: Key)
    requires !(k.InvitationShaKey? || k.RequestShaKey? || k.EncryptedShaKey? || k.TranscriptShaKey? || k.ConfirmedKey?)
    ensures Without('"', Name(k)) && |Name(k)| <= 27
  {
  }

  lemma NamesArePlain()
    ensures forall k :: Without('"', Name(k)) && |Name(k)| <= 27
  {
    forall k
      ensures Without('"', Name(k)) && |Name(k)| <= 27
    {
      if k.InvitationShaKey? || k.RequestShaKey? || k.EncryptedShaKey? || k.TranscriptShaKey? || k.ConfirmedKey? {
        DigestNameIsPlain(k);
      } else {
        OtherNameIsPlain(k);
      }
    }
  }

  lemma FixedArePlain(v: Saved, k: nat)
    requires k < 8
    ensures Fixed(v)[k].Plain()
  {
    NamesArePlain();
    PhaseNameIsPlain(v.phase);
    Base64IsPlain(v.invitation);
    Base64IsPlain(v.request);
    Base64IsPlain(v.encrypted);
    HexLength(v.invitationSha);
    HexLength(v.requestSha);
    HexLength(v.encryptedSha);
    HexLength(v.transcriptSha);
  }

  lemma OptionalArePlain(v: Saved, k: nat)
    requires k < |Optional(v)|
    ensures Optional(v)[k].Plain()
  {
    NamesArePlain();
    if v.confirmed.Some? {
      HexLength(v.confirmed.value);
    }
    if v.response.Some? {
      HexLength(v.response.value.0);
      Base64IsPlain(v.response.value.1);
    }
  }

  lemma MembersArePlain(v: Saved)
    ensures forall m <- Fixed(v) + Optional(v) :: m.Plain()
  {
    forall m <- Fixed(v) + Optional(v)
      ensures m.Plain()
    {
      if m in Fixed(v) {
        var k :| 0 <= k < 8 && Fixed(v)[k] == m;
        FixedArePlain(v, k);
      } else {
        var k :| 0 <= k < |Optional(v)| && Optional(v)[k] == m;
        OptionalArePlain(v, k);
      }
    }
  }

  lemma FixedAreExact(v: Saved, w: Saved)
    requires v.Fits() && w.Fits() && Fixed(v) == Fixed(w)
    ensures v == w.(generation := v.generation, confirmed := v.confirmed, response := v.response)
  {
    var ms, ns := Fixed(v), Fixed(w);
    assert forall k | 0 <= k < 8 :: ms[k].value == ns[k].value;
    Base64IsExact(v.invitation, w.invitation);
    Base64IsExact(v.request, w.request);
    Base64IsExact(v.encrypted, w.encrypted);
    HexIsExact(v.invitationSha, w.invitationSha);
    HexIsExact(v.requestSha, w.requestSha);
    HexIsExact(v.encryptedSha, w.encryptedSha);
    HexIsExact(v.transcriptSha, w.transcriptSha);
  }

  lemma OptionalAreExact(v: Saved, w: Saved)
    requires v.Fits() && w.Fits() && Optional(v) == Optional(w)
    ensures v.confirmed == w.confirmed && v.response == w.response
  {
    var ms, ns := Optional(v), Optional(w);
    assert v.confirmed.Some? <==> |ms| % 2 == 1;
    assert w.confirmed.Some? <==> |ns| % 2 == 1;
    if v.confirmed.Some? {
      assert ms[0].value == ns[0].value;
      HexIsExact(v.confirmed.value, w.confirmed.value);
    }
    if v.response.Some? {
      var k := |ms| - 2;
      assert ms[k].value == ns[k].value && ms[k + 1].value == ns[k + 1].value;
      HexIsExact(v.response.value.0, w.response.value.0);
      Base64IsExact(v.response.value.1, w.response.value.1);
    }
  }

  /** No two sessions are stored as the same text. Since only a text that re-encodes to itself is
      accepted, what is read is exactly what was written. */
  lemma TextIsExact(v: Saved, w: Saved)
    requires v.Fits() && w.Fits() && Text(v) == Text(w)
    ensures v == w
  {
    var ms, ns := Fixed(v) + Optional(v), Fixed(w) + Optional(w);
    var t, u := Decimal(v.generation) + Members(ms), Decimal(w.generation) + Members(ns);
    assert t == Text(v)[|Start()|..] && u == Text(w)[|Start()|..];
    U64HasTwentyDigits();
    DecimalLength(v.generation, 20);
    DecimalLength(w.generation, 20);
    SplitsAt(',', Decimal(v.generation), Members(ms), Decimal(w.generation), Members(ns));
    DecimalIsExact(v.generation, w.generation);
    MembersArePlain(v);
    MembersArePlain(w);
    MembersAreExact(ms, ns);
    assert Fixed(v) == ms[..8] && Fixed(w) == ns[..8];
    FixedAreExact(v, w);
    assert Optional(v) == ms[8..] && Optional(w) == ns[8..];
    OptionalAreExact(v, w);
  }

  function Size(ms: seq<Member>): nat {
    if ms == [] then 2 else |ms[0].name| + |ms[0].value| + 6 + Size(ms[1..])
  }

  lemma {:induction false} MembersSize(ms: seq<Member>)
    ensures |Members(ms)| == Size(ms)
  {
    if ms != [] {
      MembersSize(ms[1..]);
    }
  }

  lemma SizeFrom(ms: seq<Member>, k: nat)
    requires k < |ms|
    ensures Size(ms[k..]) == |ms[k].name| + |ms[k].value| + 6 + Size(ms[k + 1..])
  {
    assert ms[k..][1..] == ms[k + 1..];
  }

  lemma ValuesAreBounded(v: Saved)
    requires v.Fits()
    ensures |Base64(v.invitation)| <= 349_528 && |Base64(v.request)| <= 349_528 && |Base64(v.encrypted)| <= 873_816
    ensures |Hex(v.invitationSha)| == |Hex(v.requestSha)| == |Hex(v.encryptedSha)| == |Hex(v.transcriptSha)| == 64
    ensures v.confirmed.Some? ==> |Hex(v.confirmed.value)| == 64
    ensures v.response.Some? ==> |Hex(v.response.value.0)| == 64 && |Base64(v.response.value.1)| <= 5_592_408
  {
    Base64Length(v.invitation);
    Base64Length(v.request);
    Base64Length(v.encrypted);
    HexLength(v.invitationSha);
    HexLength(v.requestSha);
    HexLength(v.encryptedSha);
    HexLength(v.transcriptSha);
    if v.confirmed.Some? {
      HexLength(v.confirmed.value);
    }
    if v.response.Some? {
      HexLength(v.response.value.0);
      Base64Length(v.response.value.1);
    }
  }

  lemma FixedSize(v: Saved, rest: seq<Member>)
    requires v.Fits()
    ensures Size(Fixed(v) + rest) <= 1_573_412 + Size(rest)
  {
    var ms := Fixed(v) + rest;
    NamesArePlain();
    PhaseNameIsPlain(v.phase);
    ValuesAreBounded(v);
    SizeFrom(ms, 0);
    SizeFrom(ms, 1);
    SizeFrom(ms, 2);
    SizeFrom(ms, 3);
    SizeFrom(ms, 4);
    SizeFrom(ms, 5);
    SizeFrom(ms, 6);
    SizeFrom(ms, 7);
    assert ms[0..] == ms && ms[8..] == rest;
  }

  lemma OptionalSize(v: Saved)
    requires v.Fits()
    ensures Size(Optional(v)) <= 5_592_660
  {
    var ms := Optional(v);
    NamesArePlain();
    ValuesAreBounded(v);
    assert ms[0..] == ms && ms[|ms|..] == [];
    if v.confirmed.Some? {
      SizeFrom(ms, 0);
    }
    if v.response.Some? {
      SizeFrom(ms, |ms| - 2);
      SizeFrom(ms, |ms| - 1);
    }
  }

  /** No session outgrows its file: the limit that encoding checks is never reached. */
  lemma TextFits(v: Saved)
    requires v.Fits()
    ensures 0 < |Text(v)| <= MAX_SESSION
  {
    U64HasTwentyDigits();
    DecimalLength(v.generation, 20);
    MembersSize(Fixed(v) + Optional(v));
    FixedSize(v, Optional(v));
    OptionalSize(v);
    assert |Start()| < 100;
  }

  /** `Encode`: the text, unless it exceeds its limit. */
  function Encode(v: Saved): Option<string> {
    if |Text(v)| > MAX_SESSION then None else Some(Text(v))
  }

  /** `ParseTargetSession` up to the point where the text is known to be canonical; `decoded` is
      what the strict JSON decoder makes of it. */
  function Parse(text: string, decoded: Option<Saved>): Option<Saved> {
    if text == "" || |text| > MAX_SESSION then None
    else if decoded.None? || Text(decoded.value) != text || !decoded.value.Fits() then None
    else decoded
  }

  /** Encoding never fails, its text is accepted for what it says, and nothing else is ever
      accepted for it, whatever the decoder yields. */
  lemma SavedIsReadBack(v: Saved, text: string, decoded: Option<Saved>)
    requires v.Fits()
    ensures Encode(v) == Some(Text(v)) && Parse(Text(v), Some(v)) == Some(v)
    ensures Parse(Text(v), decoded).Some? ==> Parse(Text(v), decoded) == Some(v)
    ensures Parse(text, decoded).Some? ==> Encode(Parse(text, decoded).value) == Some(text)
  {
    TextFits(v);
    if Parse(Text(v), decoded).Some? {
      TextIsExact(v, decoded.value);
    }
  }
}
