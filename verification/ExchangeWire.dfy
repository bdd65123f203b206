/**
  The mailbox request and response messages.
  Source: internal/enrollmentexchange/exchange_wire.go. Mailbox identities and capabilities are
  their 32 raw bytes here; module Capability relates those of a capability to its text.
*/
module ExchangeWire {
  import opened Common
  import opened Framing

  const REQUEST_HEADER := 4 + 1 + 1 + 2 + 4 + ID_SIZE + CAPABILITY_SIZE
  const RESPONSE_HEADER := 4 + 1 + 1 + 2 + 4
  const MAX_REGISTRATION := 1024 * 1024
  const MAX_MESSAGE := REQUEST_HEADER + MAX_BOUND_RESPONSE

  datatype Action = CreateMailbox | PutRequest | ReadRequest | PutResponse | ReadResponse | ConsumeMailbox

  function ActionByte(a: Action): (b: Byte)
    ensures 1 <= b <= 6 && ActionOf(b) == Some(a)
  {
    match a
    case CreateMailbox => 1
    case PutRequest => 2
    case ReadRequest => 3
    case PutResponse => 4
    case ReadResponse => 5
    case ConsumeMailbox => 6
  }

  function ActionOf(b: Byte): Option<Action> {
    if b == 1 then Some(CreateMailbox)
    else if b == 2 then Some(PutRequest)
    else if b == 3 then Some(ReadRequest)
    else if b == 4 then Some(PutResponse)
    else if b == 5 then Some(ReadResponse)
    else if b == 6 then Some(ConsumeMailbox) else None
  }

  lemma ActionBytesAreUnique(b: Byte)
    ensures ActionOf(b).Some? ==> ActionByte(ActionOf(b).value) == b
  {
  }

  /** `validExchangePayload`. */
  predicate ValidPayload(a: Action, size: nat) {
    match a
    case CreateMailbox => 0 < size <= MAX_REGISTRATION
    case PutRequest => 0 < size <= MAX_ENCRYPTED_REQUEST
    case PutResponse => 0 < size <= MAX_BOUND_RESPONSE
    case _ => size == 0
  }

  datatype Request = Request(action: Action, mailbox: Bytes, capability: Bytes, payload: Bytes)
  {
    predicate Valid() {
      && |mailbox| == ID_SIZE && mailbox != Zeros(ID_SIZE) && |capability| == CAPABILITY_SIZE
      && ValidPayload(action, |payload|)
    }
  }

  function Magic(): Bytes {
    [79, 84, 69, 88]
  }

  function RequestBytes(r: Request): Bytes {
    Magic() + [1, ActionByte(r.action), 0, 0] + BigEndian(|r.payload|, 4) + r.mailbox + r.capability + r.payload
  }

  /** `encodeExchangeRequest`, filling one zeroed buffer. */
  method EncodeRequest(r: Request) returns (encoded: Option<Bytes>)
    ensures encoded == if r.Valid() then Some(RequestBytes(r)) else None
  {
    if !r.Valid() {
      return None;
    }
    var buffer := new Byte[REQUEST_HEADER + |r.payload|](_ => 0);
    CopyInto(buffer, 0, Magic());
    assert buffer[4..][2] == 0 && buffer[4..][3] == 0;
    buffer[4], buffer[5] := 1, ActionByte(r.action);
    ghost var done := Magic() + [1, ActionByte(r.action), 0, 0];
    assert buffer[..8] == buffer[0..4] + [buffer[4], buffer[5], buffer[6], buffer[7]] == done;
    var offset := Extend(buffer, 8, BigEndian(|r.payload|, 4), done);
    done := done + BigEndian(|r.payload|, 4);
    offset := Extend(buffer, offset, r.mailbox, done);
    done := done + r.mailbox;
    offset := Extend(buffer, offset, r.capability, done);
    done := done + r.capability;
    offset := Extend(buffer, offset, r.payload, done);
    assert buffer[..] == buffer[..offset];
    return Some(buffer[..]);
  }

  /** `parseExchangeRequest`. */
  function ParseRequest(b: Bytes): Option<Request> {
    if |b| < REQUEST_HEADER || |b| > MAX_MESSAGE || b[..4] != Magic() || b[4] != 1 || b[6] != 0 || b[7] != 0 then None
    else if Number(b[8..12]) != |b| - REQUEST_HEADER || b[12..44] == Zeros(ID_SIZE) then None
    else
      var action := ActionOf(b[5]);
      if action.None? || !ValidPayload(action.value, |b| - REQUEST_HEADER) then None
      else Some(Request(action.value, b[12..44], b[44..76], b[76..]))
  }

  /** The fixed fields of a request, in place. */
  lemma RequestFields(r: Request)
    requires r.Valid()
    ensures var b := RequestBytes(r);
      && |b| == REQUEST_HEADER + |r.payload|
      && b[..4] == Magic() && b[4] == 1 && b[5] == ActionByte(r.action) && b[6] == 0 && b[7] == 0
      && b[8..12] == BigEndian(|r.payload|, 4) && b[12..44] == r.mailbox && b[44..76] == r.capability && b[76..] == r.payload
  {
  }

  /** Requests are exact inverses both ways. */
  lemma RequestIsReadBack(r: Request)
    requires r.Valid()
    ensures ParseRequest(RequestBytes(r)) == Some(r)
  {
    RequestFields(r);
    Widths();
    NumberOfBigEndian(|r.payload|, 4);
  }

  lemma ReadRequestWasWritten(b: Bytes)
    requires ParseRequest(b).Some?
    ensures ParseRequest(b).value.Valid() && RequestBytes(ParseRequest(b).value) == b
  {
    var r := ParseRequest(b).value;
    ActionBytesAreUnique(b[5]);
    BigEndianOfNumber(b[8..12]);
    assert b == b[..4] + [b[4], b[5], b[6], b[7]] + b[8..12] + b[12..44] + b[44..76] + b[76..];
  }

  // ----------------------------------------------------------------------- responses

  function ResponseBytes(payload: Bytes, success: bool): Bytes {
    Magic() + [1, if success then 0 else 1, 0, 0] + BigEndian(|payload|, 4) + payload
  }

  predicate ValidResponse(payload: Bytes, success: bool) {
    |payload| <= MAX_BOUND_RESPONSE && (success || payload == [])
  }

  /** `encodeExchangeResponse`. */
  method EncodeResponse(payload: Bytes, success: bool) returns (encoded: Option<Bytes>)
    ensures encoded == if ValidResponse(payload, success) then Some(ResponseBytes(payload, success)) else None
  {
    if |payload| > MAX_BOUND_RESPONSE || (!success && |payload| != 0) {
      return None;
    }
    var buffer := new Byte[RESPONSE_HEADER + |payload|](_ => 0);
    CopyInto(buffer, 0, Magic());
    assert buffer[4..][1] == 0 && buffer[4..][2] == 0 && buffer[4..][3] == 0;
    buffer[4] := 1;
    if !success {
      buffer[5] := 1;
    }
    ghost var done := Magic() + [1, if success then 0 else 1, 0, 0];
    assert buffer[..8] == buffer[0..4] + [buffer[4], buffer[5], buffer[6], buffer[7]] == done;
    var offset := Extend(buffer, 8, BigEndian(|payload|, 4), done);
    offset := Extend(buffer, offset, payload, done + BigEndian(|payload|, 4));
    assert buffer[..] == buffer[..offset];
    return Some(buffer[..]);
  }

  /** `parseExchangeResponse`: a refusal is an error for its reader, like any malformed message. */
  function ParseResponse(b: Bytes): Option<Bytes> {
    if |b| < RESPONSE_HEADER || |b| > RESPONSE_HEADER + MAX_BOUND_RESPONSE || b[..4] != Magic() || b[4] != 1 || b[6] != 0 || b[7] != 0 ||
       Number(b[8..12]) != |b| - RESPONSE_HEADER || b[5] != 0
    then None
    else Some(b[12..])
  }

  /** Successful responses are exact inverses both ways, and a refusal is never taken for one. */
  lemma ResponsesRoundTrip(payload: Bytes, b: Bytes)
    ensures |payload| <= MAX_BOUND_RESPONSE ==> ParseResponse(ResponseBytes(payload, true)) == Some(payload)
    ensures ParseResponse(ResponseBytes(payload, false)).None?
    ensures ParseResponse(b) == Some(payload) ==> ValidResponse(payload, true) && b == ResponseBytes(payload, true)
  {
    var e := ResponseBytes(payload, true);
    assert e[..4] == Magic() && e[4] == 1 && e[5] == 0 && e[6] == 0 && e[7] == 0 && e[8..12] == BigEndian(|payload|, 4) && e[12..] == payload;
    assert ResponseBytes(payload, false)[5] == 1;
    Widths();
    if |payload| <= MAX_BOUND_RESPONSE {
      NumberOfBigEndian(|payload|, 4);
    }
    if ParseResponse(b) == Some(payload) {
      BigEndianOfNumber(b[8..12]);
      assert b == b[..4] + [b[4], b[5], b[6], b[7]] + b[8..12] + b[12..];
    }
  }
}
