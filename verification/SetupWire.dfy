/**
  The private pipe between the setup frontend and the installed control program: frames, reverse
  words and the setup state.
  Source: internal/enrollmentsetup/wire.go. Mailbox identities and capabilities are their 32 raw
  bytes here; module Capability relates those of a capability to its text.
*/
module SetupWire {
  import opened Common
  import opened Framing
  import X = ExchangeSession

  const MAX_FRAME_SIZE := 8 * 1024 * 1024
  const HEADER_SIZE := 12
  const MAX_ENDPOINT := 2048

  // -------------------------------------------------------------------------- frames

  datatype FrameKind = InvitationFrame | ReverseWordsFrame | BoundResponseFrame | StateFrame

  function KindByte(kind: FrameKind): Byte {
    match kind
    case InvitationFrame => 1
    case ReverseWordsFrame => 2
    case BoundResponseFrame => 3
    case StateFrame => 4
  }

  function Prefix(kind: FrameKind): (b: Bytes)
    ensures |b| == 8
  {
    [79, 84, 83, 85, 1, KindByte(kind), 0, 0]
  }

  function FrameBytes(kind: FrameKind, payload: Bytes): Bytes {
    Prefix(kind) + BigEndian(|payload|, 4) + payload
  }

  /** `EncodeFrame`, filling one zeroed buffer. */
  method EncodeFrame(kind: FrameKind, payload: Bytes) returns (r: Option<Bytes>)
    ensures r == if |payload| <= MAX_FRAME_SIZE then Some(FrameBytes(kind, payload)) else None
  {
    if |payload| > MAX_FRAME_SIZE {
      return None;
    }
    var encoded := new Byte[HEADER_SIZE + |payload|](_ => 0);
    CopyInto(encoded, 0, [79, 84, 83, 85]);
    assert encoded[4..][2] == 0 && encoded[4..][3] == 0;
    encoded[4], encoded[5] := 1, KindByte(kind);
    assert encoded[..8] == encoded[0..4] + [encoded[4], encoded[5], encoded[6], encoded[7]] == Prefix(kind);
    var offset := Extend(encoded, 8, BigEndian(|payload|, 4), Prefix(kind));
    offset := Extend(encoded, offset, payload, Prefix(kind) + BigEndian(|payload|, 4));
    assert encoded[..] == encoded[..offset];
    return Some(encoded[..]);
  }

  /** `ReadFrame` over an input that is `encoded` and then ends. */
  function ReadFrame(encoded: Bytes, expected: FrameKind, limit: nat): Option<Bytes> {
    if limit > MAX_FRAME_SIZE || |encoded| < HEADER_SIZE || encoded[..8] != Prefix(expected) then None
    else
      var size := Number(encoded[8..12]);
      if size > limit || |encoded| != HEADER_SIZE + size then None else Some(encoded[HEADER_SIZE..])
  }

  /** Frames are exact inverses both ways: what was framed is read back, and what is read was framed. */
  lemma FramesRoundTrip(kind: FrameKind, payload: Bytes, encoded: Bytes, limit: nat)
    requires limit <= MAX_FRAME_SIZE
    ensures |payload| <= limit ==> ReadFrame(FrameBytes(kind, payload), kind, limit) == Some(payload)
    ensures ReadFrame(encoded, kind, limit) == Some(payload) ==> |payload| <= limit && encoded == FrameBytes(kind, payload)
  {
    Widths();
    if |payload| <= limit {
      var f := FrameBytes(kind, payload);
      assert f[..8] == Prefix(kind) && f[8..12] == BigEndian(|payload|, 4);
      NumberOfBigEndian(|payload|, 4);
    }
    if ReadFrame(encoded, kind, limit) == Some(payload) {
      BigEndianOfNumber(encoded[8..12]);
      assert encoded == encoded[..8] + encoded[8..12] + encoded[12..];
    }
  }

  // --------------------------------------------------------------------------- words

  predicate ValidWords(ws: seq<string>) {
    forall k | 0 <= k < |ws| :: ComparisonWord(ws[k])
  }

  function WordBytes(w: string): Bytes
    requires ComparisonWord(w)
  {
    [|w|] + BytesOf(w)
  }

  function WordsBytes(ws: seq<string>): Bytes
    requires ValidWords(ws)
  {
    if ws == [] then [] else WordsBytes(ws[..|ws| - 1]) + WordBytes(ws[|ws| - 1])
  }

  /** One length-prefixed word at `offset`, and where the next one starts. */
  function TakeWord(payload: Bytes, offset: nat): Option<(string, nat)>
    requires offset <= |payload|
  {
    if offset == |payload| then None
    else
      var size := payload[offset];
      if size < 3 || size > 8 || offset + 1 + size > |payload| then None
      else
        var w := TextOf(payload[offset + 1..offset + 1 + size]);
        if ComparisonWord(w) then Some((w, offset + 1 + size)) else None
  }

  /** The first `count` words from `offset` on. */
  function TakeWords(payload: Bytes, offset: nat, count: nat): (r: Option<(seq<string>, nat)>)
    requires offset <= |payload|
    ensures r.Some? ==> offset <= r.value.1 <= |payload| && |r.value.0| == count && ValidWords(r.value.0)
  {
    if count == 0 then Some(([], offset))
    else
      var init := TakeWords(payload, offset, count - 1);
      if init.None? then None
      else
        var w := TakeWord(payload, init.value.1);
        if w.None? then None else Some((init.value.0 + [w.value.0], w.value.1))
  }

  /** The loop that both decoders run, advancing `offset` over three words. */
  method DecodeWords(payload: Bytes, start: nat) returns (words: Option<seq<string>>, offset: nat)
    requires start <= |payload|
    ensures words.Some? <==> TakeWords(payload, start, 3).Some?
    ensures words.Some? ==> TakeWords(payload, start, 3) == Some((words.value, offset))
  {
    var taken: seq<string> := [];
    offset := start;
    for index := 0 to 3
      invariant offset <= |payload| && TakeWords(payload, start, index) == Some((taken, offset))
    {
      assert TakeWords(payload, start, index + 1).Some? <==> TakeWord(payload, offset).Some?;
      TakeWordsFails(payload, start, index + 1, 3);
      if offset >= |payload| {
        return None, offset;
      }
      var size := payload[offset];
      if size < 3 || size > 8 || offset + 1 + size > |payload| || !ComparisonWord(TextOf(payload[offset + 1..offset + 1 + size])) {
        return None, offset;
      }
      taken := taken + [TextOf(payload[offset + 1..offset + 1 + size])];
      offset := offset + 1 + size;
    }
    return Some(taken), offset;
  }

  lemma {:induction false} TakeWordsFails(payload: Bytes, offset: nat, count: nat, more: nat)
    requires offset <= |payload| && count <= more
    ensures TakeWords(payload, offset, count).None? ==> TakeWords(payload, offset, more).None?
    decreases more
  {
    if count < more {
      TakeWordsFails(payload, offset, count, more - 1);
    }
  }

  lemma SlicesSplit(p: Bytes, a: nat, m: nat, e: nat, x: Bytes, y: Bytes)
    requires a <= m <= e <= |p| && |x| == m - a && |y| == e - m
    ensures p[a..e] == x + y <==> p[a..m] == x && p[m..e] == y
  {
    assert p[a..e] == p[a..m] + p[m..e];
    if p[a..e] == x + y {
      assert p[a..m] == p[a..e][..m - a] && x == (x + y)[..m - a];
      assert p[m..e] == p[a..e][m - a..] && y == (x + y)[m - a..];
    }
  }

  lemma WordIsReadBack(payload: Bytes, offset: nat, w: string)
    requires ComparisonWord(w) && offset + |WordBytes(w)| <= |payload| && payload[offset..offset + |WordBytes(w)|] == WordBytes(w)
    ensures TakeWord(payload, offset) == Some((w, offset + |WordBytes(w)|))
  {
    var end := offset + |WordBytes(w)|;
    SlicesSplit(payload, offset, offset + 1, end, [|w|], BytesOf(w));
    assert payload[offset] == payload[offset..offset + 1][0];
    TextOfBytes(w);
  }

  lemma ReadWordWasWritten(payload: Bytes, offset: nat)
    requires offset <= |payload| && TakeWord(payload, offset).Some?
    ensures var (w, end) := TakeWord(payload, offset).value;
      ComparisonWord(w) && end == offset + |WordBytes(w)| <= |payload| && payload[offset..end] == WordBytes(w)
  {
    var (w, end) := TakeWord(payload, offset).value;
    BytesOfText(payload[offset + 1..end]);
    assert payload[offset..end] == [payload[offset]] + payload[offset + 1..end];
  }

  /** Words are exact inverses both ways: written words are read back. */
  lemma {:induction false} WordsAreReadBack(payload: Bytes, offset: nat, ws: seq<string>)
    requires ValidWords(ws) && offset + |WordsBytes(ws)| <= |payload|
    requires payload[offset..offset + |WordsBytes(ws)|] == WordsBytes(ws)
    ensures TakeWords(payload, offset, |ws|) == Some((ws, offset + |WordsBytes(ws)|))
  {
    if ws != [] {
      var init, w := ws[..|ws| - 1], ws[|ws| - 1];
      var middle := offset + |WordsBytes(init)|;
      SlicesSplit(payload, offset, middle, offset + |WordsBytes(ws)|, WordsBytes(init), WordBytes(w));
      WordsAreReadBack(payload, offset, init);
      WordIsReadBack(payload, middle, w);
      assert ws == init + [w];
    }
  }

  /** And words that are read were written. */
  lemma {:induction false} ReadWordsWereWritten(payload: Bytes, offset: nat, count: nat)
    requires offset <= |payload| && TakeWords(payload, offset, count).Some?
    ensures var (ws, end) := TakeWords(payload, offset, count).value;
      end == offset + |WordsBytes(ws)| && payload[offset..end] == WordsBytes(ws)
  {
    if count > 0 {
      ReadWordsWereWritten(payload, offset, count - 1);
      var (init, middle) := TakeWords(payload, offset, count - 1).value;
      var (ws, end) := TakeWords(payload, offset, count).value;
      ReadWordWasWritten(payload, middle);
      assert ws[..|ws| - 1] == init;
      SlicesSplit(payload, offset, middle, end, WordsBytes(init), WordBytes(ws[|ws| - 1]));
    }
  }

  /** `DecodeReverseWords` as a function: three words and nothing behind them. */
  function ReverseWordsIn(payload: Bytes): Option<seq<string>> {
    var ws := TakeWords(payload, 0, 3);
    if ws.Some? && ws.value.1 == |payload| then Some(ws.value.0) else None
  }

  method DecodeReverseWords(payload: Bytes) returns (words: Option<seq<string>>)
    ensures words == ReverseWordsIn(payload)
  {
    var offset;
    words, offset := DecodeWords(payload, 0);
    if words.Some? && offset != |payload| {
      return None;
    }
  }

  /** `EncodeReverseWords`. */
  method EncodeReverseWords(words: seq<string>) returns (r: Option<Bytes>)
    requires |words| == 3
    ensures r == if ValidWords(words) then Some(FrameBytes(ReverseWordsFrame, WordsBytes(words))) else None
  {
    var payload: Bytes := [];
    for i := 0 to 3
      invariant ValidWords(words[..i]) && payload == WordsBytes(words[..i]) && |payload| <= 9 * i
    {
      if !ComparisonWord(words[i]) {
        return None;
      }
      payload := payload + WordBytes(words[i]);
      assert words[..i + 1][..i] == words[..i];
    }
    assert words[..3] == words;
    r := EncodeFrame(ReverseWordsFrame, payload);
  }

  /** Reverse words are exact inverses both ways. */
  lemma ReverseWordsRoundTrip(ws: seq<string>, payload: Bytes)
    ensures |ws| == 3 && ValidWords(ws) ==> ReverseWordsIn(WordsBytes(ws)) == Some(ws)
    ensures ReverseWordsIn(payload) == Some(ws) ==> |ws| == 3 && ValidWords(ws) && payload == WordsBytes(ws)
  {
    if |ws| == 3 && ValidWords(ws) {
      assert WordsBytes(ws)[0..|WordsBytes(ws)|] == WordsBytes(ws);
      WordsAreReadBack(WordsBytes(ws), 0, ws);
    }
    if ReverseWordsIn(payload) == Some(ws) {
      ReadWordsWereWritten(payload, 0, 3);
      assert payload[0..|payload|] == payload;
    }
  }

  // ------------------------------------------------- mailbox addresses and their tails

  predicate ValidMailbox(endpoint: Bytes, mailbox: Bytes) {
    0 < |endpoint| <= MAX_ENDPOINT && |mailbox| == ID_SIZE && mailbox != Zeros(ID_SIZE)
  }

  function MailboxBytes(endpoint: Bytes, mailbox: Bytes): Bytes {
    BigEndian(|endpoint|, 2) + endpoint + mailbox
  }

  /** Endpoint and identity at the start of `p`, and how many bytes they took. */
  function TakeMailbox(p: Bytes): (r: Option<(Bytes, Bytes, nat)>)
    ensures r.Some? ==> r.value.2 <= |p|
  {
    if |p| < 2 + ID_SIZE then None
    else
      var n := Number(p[..2]);
      if n == 0 || n > MAX_ENDPOINT || |p| < 2 + ID_SIZE + n || p[2 + n..34 + n] == Zeros(ID_SIZE) then None
      else Some((p[2..2 + n], p[2 + n..34 + n], 34 + n))
  }

  lemma MailboxIsReadBack(endpoint: Bytes, mailbox: Bytes, rest: Bytes)
    requires ValidMailbox(endpoint, mailbox)
    ensures TakeMailbox(MailboxBytes(endpoint, mailbox) + rest) == Some((endpoint, mailbox, |MailboxBytes(endpoint, mailbox)|))
  {
    var p, n := MailboxBytes(endpoint, mailbox) + rest, |endpoint|;
    Widths();
    NumberOfBigEndian(n, 2);
    assert p[..2] == BigEndian(n, 2);
    assert p[2..2 + n] == endpoint;
    assert p[2 + n..34 + n] == mailbox;
  }

  lemma ReadMailboxWasWritten(p: Bytes)
    requires TakeMailbox(p).Some?
    ensures var (endpoint, mailbox, end) := TakeMailbox(p).value;
      ValidMailbox(endpoint, mailbox) && p[..end] == MailboxBytes(endpoint, mailbox)
  {
    var (endpoint, mailbox, end) := TakeMailbox(p).value;
    BigEndianOfNumber(p[..2]);
    assert p[..end] == p[..2] + p[2..end - 32] + p[end - 32..end];
  }

  /** What follows the address of an action: two capabilities and the encrypted request. */
  function TailBytes(write: Bytes, read: Bytes, request: Bytes): Bytes {
    write + read + Field(request)
  }

  function TakeTail(q: Bytes): (r: Option<(Bytes, Bytes, Bytes, nat)>)
    ensures r.Some? ==> r.value.3 <= |q| && |r.value.0| == |r.value.1| == 32
  {
    if |q| < 68 then None
    else
      var m := Number(q[64..68]);
      if m == 0 || m > MAX_ENCRYPTED_REQUEST || 68 + m > |q| then None
      else Some((q[..32], q[32..64], q[68..68 + m], 68 + m))
  }

  lemma TailIsReadBack(write: Bytes, read: Bytes, request: Bytes, rest: Bytes)
    requires |write| == |read| == 32 && 0 < |request| <= MAX_ENCRYPTED_REQUEST
    ensures TakeTail(TailBytes(write, read, request) + rest) == Some((write, read, request, |TailBytes(write, read, request)|))
  {
    var q, m := TailBytes(write, read, request) + rest, |request|;
    Widths();
    NumberOfBigEndian(m, 4);
    assert q[..32] == write;
    assert q[32..64] == read;
    assert q[64..68] == BigEndian(m, 4);
    assert q[68..68 + m] == request;
  }

  lemma ReadTailWasWritten(q: Bytes)
    requires TakeTail(q).Some?
    ensures var (write, read, request, end) := TakeTail(q).value;
      0 < |request| <= MAX_ENCRYPTED_REQUEST && q[..end] == TailBytes(write, read, request)
  {
    var (write, read, request, end) := TakeTail(q).value;
    BigEndianOfNumber(q[64..68]);
    assert q[..end] == q[..32] + q[32..64] + (q[64..68] + q[68..end]);
  }

  // ----------------------------------------------------- mailbox action and tombstone

  datatype MailboxAction = MailboxAction(endpoint: Bytes, mailbox: Bytes, requestWrite: Bytes, responseRead: Bytes, request: Bytes)
  {
    predicate Valid() {
      ValidMailbox(endpoint, mailbox) && |requestWrite| == |responseRead| == 32 && 0 < |request| <= MAX_ENCRYPTED_REQUEST
    }
  }

  datatype Tombstone = Tombstone(endpoint: Bytes, mailbox: Bytes, responseRead: Bytes)
  {
    predicate Valid() {
      ValidMailbox(endpoint, mailbox) && |responseRead| == 32
    }
  }

  function ActionBytes(a: MailboxAction): Bytes {
    MailboxBytes(a.endpoint, a.mailbox) + TailBytes(a.requestWrite, a.responseRead, a.request)
  }

  function TombstoneBytes(t: Tombstone): Bytes {
    MailboxBytes(t.endpoint, t.mailbox) + t.responseRead
  }

  /** The common part of both encoders: a buffer that starts with the mailbox address. */
  method PutMailbox(buffer: array<Byte>, endpoint: Bytes, mailbox: Bytes) returns (offset: nat)
    requires |MailboxBytes(endpoint, mailbox)| <= buffer.Length
    modifies buffer
    ensures offset == |MailboxBytes(endpoint, mailbox)| && buffer[..offset] == MailboxBytes(endpoint, mailbox)
  {
    offset := Extend(buffer, 0, BigEndian(|endpoint|, 2), []);
    offset := Extend(buffer, offset, endpoint, BigEndian(|endpoint|, 2));
    offset := Extend(buffer, offset, mailbox, BigEndian(|endpoint|, 2) + endpoint);
  }

  method PutTail(buffer: array<Byte>, at: nat, write: Bytes, read: Bytes, request: Bytes, ghost before: Bytes) returns (offset: nat)
    requires at + |TailBytes(write, read, request)| <= buffer.Length && buffer[..at] == before
    modifies buffer
    ensures offset == at + |TailBytes(write, read, request)| && buffer[..offset] == before + TailBytes(write, read, request)
  {
    offset := Extend(buffer, at, write, before);
    offset := Extend(buffer, offset, read, before + write);
    offset := Extend(buffer, offset, BigEndian(|request|, 4), before + write + read);
    offset := Extend(buffer, offset, request, before + write + read + BigEndian(|request|, 4));
    assert before + write + read + BigEndian(|request|, 4) + request == before + TailBytes(write, read, request);
  }

  /** `encodeMailboxAction`, filling one buffer in order. */
  method EncodeMailboxAction(a: MailboxAction) returns (r: Option<Bytes>)
    ensures r == if a.Valid() then Some(ActionBytes(a)) else None
  {
    if !a.Valid() {
      return None;
    }
    var payload := new Byte[2 + |a.endpoint| + |a.mailbox| + 32 + 32 + 4 + |a.request|];
    var offset := PutMailbox(payload, a.endpoint, a.mailbox);
    offset := PutTail(payload, offset, a.requestWrite, a.responseRead, a.request, MailboxBytes(a.endpoint, a.mailbox));
    assert payload[..] == payload[..offset];
    return Some(payload[..]);
  }

  /** `encodeMailboxTombstone`. */
  method EncodeMailboxTombstone(t: Tombstone) returns (r: Option<Bytes>)
    ensures r == if t.Valid() then Some(TombstoneBytes(t)) else None
  {
    if !t.Valid() {
      return None;
    }
    var payload := new Byte[2 + |t.endpoint| + |t.mailbox| + 32];
    var offset := PutMailbox(payload, t.endpoint, t.mailbox);
    offset := Extend(payload, offset, t.responseRead, MailboxBytes(t.endpoint, t.mailbox));
    assert payload[..] == payload[..offset];
    return Some(payload[..]);
  }

  /** `decodeMailboxAction`: the action at the start of `p`, and how many bytes it took. */
  function TakeAction(p: Bytes): (r: Option<(MailboxAction, nat)>)
    ensures r.Some? ==> r.value.1 <= |p|
  {
    var address := TakeMailbox(p);
    if address.None? then None
    else
      var tail := TakeTail(p[address.value.2..]);
      if tail.None? then None
      else
        Some((MailboxAction(address.value.0, address.value.1, tail.value.0, tail.value.1, tail.value.2), address.value.2 + tail.value.3))
  }

  /** `decodeMailboxTombstone`. */
  function TakeTombstone(p: Bytes): (r: Option<(Tombstone, nat)>)
    ensures r.Some? ==> r.value.1 <= |p|
  {
    var address := TakeMailbox(p);
    if address.None? || |p| < address.value.2 + 32 then None
    else Some((Tombstone(address.value.0, address.value.1, p[address.value.2..address.value.2 + 32]), address.value.2 + 32))
  }

  /** Actions are exact inverses both ways. */
  lemma ActionIsReadBack(a: MailboxAction, rest: Bytes)
    requires a.Valid()
    ensures TakeAction(ActionBytes(a) + rest) == Some((a, |ActionBytes(a)|))
  {
    var address, tail := MailboxBytes(a.endpoint, a.mailbox), TailBytes(a.requestWrite, a.responseRead, a.request);
    assert ActionBytes(a) + rest == address + (tail + rest);
    MailboxIsReadBack(a.endpoint, a.mailbox, tail + rest);
    assert (address + (tail + rest))[|address|..] == tail + rest;
    TailIsReadBack(a.requestWrite, a.responseRead, a.request, rest);
  }

  lemma ReadActionWasWritten(p: Bytes)
    requires TakeAction(p).Some?
    ensures TakeAction(p).value.0.Valid() && p[..TakeAction(p).value.1] == ActionBytes(TakeAction(p).value.0)
  {
    var middle := TakeMailbox(p).value.2;
    var q := p[middle..];
    var size := TakeTail(q).value.3;
    ReadMailboxWasWritten(p);
    ReadTailWasWritten(q);
    assert p[..middle + size] == p[..middle] + q[..size];
  }

  /** So are tombstones. */
  lemma TombstoneIsReadBack(t: Tombstone, rest: Bytes)
    requires t.Valid()
    ensures TakeTombstone(TombstoneBytes(t) + rest) == Some((t, |TombstoneBytes(t)|))
  {
    var address := MailboxBytes(t.endpoint, t.mailbox);
    assert TombstoneBytes(t) + rest == address + (t.responseRead + rest);
    MailboxIsReadBack(t.endpoint, t.mailbox, t.responseRead + rest);
    assert (address + (t.responseRead + rest))[|address|..|address| + 32] == t.responseRead;
  }

  lemma ReadTombstoneWasWritten(p: Bytes)
    requires TakeTombstone(p).Some?
    ensures TakeTombstone(p).value.0.Valid() && p[..TakeTombstone(p).value.1] == TombstoneBytes(TakeTombstone(p).value.0)
  {
    var middle := TakeMailbox(p).value.2;
    ReadMailboxWasWritten(p);
    assert p[..middle + 32] == p[..middle] + p[middle..middle + 32];
  }

  // ------------------------------------------------- the optional parts of a setup state

  /** Words are absent, or three of them. */
  datatype Parts = Parts(words: Option<seq<string>>, action: Option<MailboxAction>, tombstone: Option<Tombstone>)
  {
    predicate Valid() {
      && (words.Some? ==> |words.value| == 3 && ValidWords(words.value))
      && (action.Some? ==> action.value.Valid())
      && (tombstone.Some? ==> tombstone.value.Valid())
    }
  }

  function OptionalWords(ws: Option<seq<string>>): Bytes
    requires ws.Some? ==> ValidWords(ws.value)
  {
    if ws.Some? then WordsBytes(ws.value) else []
  }

  function OptionalAction(a: Option<MailboxAction>): Bytes {
    if a.Some? then ActionBytes(a.value) else []
  }

  function OptionalTombstone(t: Option<Tombstone>): Bytes {
    if t.Some? then TombstoneBytes(t.value) else []
  }

  function PartsBytes(p: Parts): Bytes
    requires p.Valid()
  {
    OptionalWords(p.words) + (OptionalAction(p.action) + OptionalTombstone(p.tombstone))
  }

  /** The middle of `EncodeState`: the payload grows part by part. */
  method EncodeParts(p: Parts) returns (r: Option<Bytes>)
    ensures r == if p.Valid() then Some(PartsBytes(p)) else None
  {
    var payload := [];
    if p.words.Some? {
      if |p.words.value| != 3 || !ValidWords(p.words.value) {
        return None;
      }
      payload := WordsBytes(p.words.value);
    }
    ghost var words := payload;
    if p.action.Some? {
      var action := EncodeMailboxAction(p.action.value);
      if action.None? {
        return None;
      }
      payload := payload + action.value;
    }
    assert payload == words + OptionalAction(p.action);
    if p.tombstone.Some? {
      var tombstone := EncodeMailboxTombstone(p.tombstone.value);
      if tombstone.None? {
        return None;
      }
      payload := payload + tombstone.value;
    }
    assert payload == words + (OptionalAction(p.action) + OptionalTombstone(p.tombstone));
    return Some(payload);
  }

  function TakeOptionalWords(present: bool, p: Bytes): (r: Option<(Option<seq<string>>, nat)>)
    ensures r.Some? ==> r.value.1 <= |p|
  {
    if !present then Some((None, 0))
    else
      var ws := TakeWords(p, 0, 3);
      if ws.None? then None else Some((Some(ws.value.0), ws.value.1))
  }

  function TakeOptionalAction(present: bool, p: Bytes): (r: Option<(Option<MailboxAction>, nat)>)
    ensures r.Some? ==> r.value.1 <= |p|
  {
    if !present then Some((None, 0))
    else
      var a := TakeAction(p);
      if a.None? then None else Some((Some(a.value.0), a.value.1))
  }

  function TakeOptionalTombstone(present: bool, p: Bytes): (r: Option<(Option<Tombstone>, nat)>)
    ensures r.Some? ==> r.value.1 <= |p|
  {
    if !present then Some((None, 0))
    else
      var t := TakeTombstone(p);
      if t.None? then None else Some((Some(t.value.0), t.value.1))
  }

  lemma OptionalWordsAreReadBack(ws: Option<seq<string>>, rest: Bytes)
    requires ws.Some? ==> |ws.value| == 3 && ValidWords(ws.value)
    ensures TakeOptionalWords(ws.Some?, OptionalWords(ws) + rest) == Some((ws, |OptionalWords(ws)|))
  {
    if ws.Some? {
      assert (WordsBytes(ws.value) + rest)[0..|WordsBytes(ws.value)|] == WordsBytes(ws.value);
      WordsAreReadBack(WordsBytes(ws.value) + rest, 0, ws.value);
    }
  }

  lemma ReadOptionalWordsWereWritten(present: bool, p: Bytes)
    requires TakeOptionalWords(present, p).Some?
    ensures var (taken, end) := TakeOptionalWords(present, p).value;
      taken.Some? == present && (present ==> |taken.value| == 3 && ValidWords(taken.value)) && p[..end] == OptionalWords(taken)
  {
    if present {
      ReadWordsWereWritten(p, 0, 3);
    }
  }

  lemma OptionalActionIsReadBack(a: Option<MailboxAction>, rest: Bytes)
    requires a.Some? ==> a.value.Valid()
    ensures TakeOptionalAction(a.Some?, OptionalAction(a) + rest) == Some((a, |OptionalAction(a)|))
  {
    if a.Some? {
      ActionIsReadBack(a.value, rest);
    }
  }

  lemma ReadOptionalActionWasWritten(present: bool, p: Bytes)
    requires TakeOptionalAction(present, p).Some?
    ensures var (taken, end) := TakeOptionalAction(present, p).value;
      taken.Some? == present && (present ==> taken.value.Valid()) && p[..end] == OptionalAction(taken)
  {
    if present {
      ReadActionWasWritten(p);
    }
  }

  lemma OptionalTombstoneIsReadBack(t: Option<Tombstone>, rest: Bytes)
    requires t.Some? ==> t.value.Valid()
    ensures TakeOptionalTombstone(t.Some?, OptionalTombstone(t) + rest) == Some((t, |OptionalTombstone(t)|))
  {
    if t.Some? {
      TombstoneIsReadBack(t.value, rest);
    }
  }

  lemma ReadOptionalTombstoneWasWritten(present: bool, p: Bytes)
    requires TakeOptionalTombstone(present, p).Some?
    ensures var (taken, end) := TakeOptionalTombstone(present, p).value;
      taken.Some? == present && (present ==> taken.value.Valid()) && p[..end] == OptionalTombstone(taken)
  {
    if present {
      ReadTombstoneWasWritten(p);
    }
  }

  /** A valid state takes far less than a frame. */
  lemma PartsFit(p: Parts)
    requires p.Valid()
    ensures |PartsBytes(p)| + 4 < MAX_FRAME_SIZE
  {
    if p.words.Some? {
      var ws := p.words.value;
      assert WordsBytes(ws) == WordsBytes(ws[..2]) + WordBytes(ws[2]);
      assert WordsBytes(ws[..2]) == WordsBytes(ws[..2][..1]) + WordBytes(ws[1]);
      assert WordsBytes(ws[..2][..1]) == WordsBytes(ws[..2][..1][..0]) + WordBytes(ws[0]);
    }
  }
}
