/**
  The two-party comparison ceremony: the provisioner's session, and what it and the target's
  session owe each other.
  Source: internal/enrollmentexchange/operator_session.go, transcript.go, response_binding.go.
*/
module Ceremony {
  import opened Common
  import opened Framing
  import opened Padding
  import opened Phrase
  import L = Lifecycle
  import X = ExchangeSession

  // ---------------------------------------------------------------------- transcripts

  /** The exact bytes of one exchange, as either party holds them (`preparedTranscript`). */
  datatype Prepared = Prepared(invitation: Bytes, request: Bytes, ciphertext: Bytes, transcript: Sum, phrase: seq<string>)

  function Build(sha: Sha, v: seq<string>, invitation: Bytes, request: Bytes, ciphertext: Bytes): Option<Prepared>
    requires |v| == 2048
  {
    var t := TranscriptDigest(sha, invitation, request, ciphertext);
    if t.Some? then Some(Prepared(invitation, request, ciphertext, t.value, PhraseOf(sha, v, t.value))) else None
  }

  /** age decryption under the operator's one-time identity. */
  type Opener = Bytes -> Option<Bytes>

  /** `prepareTargetTranscript`, with the ciphertext that sealing has drawn. */
  function PrepareTarget(sha: Sha, v: seq<string>, invitation: Bytes, request: Bytes, ciphertext: Bytes): Option<Prepared>
    requires |v| == 2048
  {
    Build(sha, v, invitation, request, ciphertext)
  }

  /** `prepareOperatorTranscript`: the request is what the ciphertext opens to. */
  function PrepareOperator(sha: Sha, v: seq<string>, open: Opener, invitation: Bytes, ciphertext: Bytes): Option<Prepared>
    requires |v| == 2048
  {
    if |ciphertext| == 0 || |ciphertext| > MAX_ENCRYPTED_REQUEST || open(ciphertext).None? then None
    else
      var request := Unpad(sha, open(ciphertext).value);
      if request.None? then None else Build(sha, v, invitation, request.value, ciphertext)
  }

  /** What sealing promises about its ciphertext: it opens to the padded request. */
  predicate Seals(sha: Sha, open: Opener, request: Bytes, ciphertext: Bytes) {
    && open(ciphertext).Some?
    && var p := open(ciphertext).value;
    && |p| in Classes() && |p| >= HEADER_SIZE + |request| && p[..HEADER_SIZE + |request|] == Header(sha, request)
  }

  /** Both sides, holding the same invitation and ciphertext, derive the same transcript and the
      same words, whatever the padding. */
  lemma BothDeriveTheSame(sha: Sha, v: seq<string>, open: Opener, invitation: Bytes, request: Bytes, ciphertext: Bytes)
    requires |v| == 2048 && Seals(sha, open, request, ciphertext)
    requires TranscriptSizes(invitation, request, ciphertext)
    ensures PrepareTarget(sha, v, invitation, request, ciphertext).Some?
    ensures PrepareOperator(sha, v, open, invitation, ciphertext) == PrepareTarget(sha, v, invitation, request, ciphertext)
  {
    var p := open(ciphertext).value;
    assert p == Header(sha, request) + p[HEADER_SIZE + |request|..];
    UnpadUndoesPad(sha, request, p[HEADER_SIZE + |request|..]);
  }

  // ----------------------------------------------------------- the provisioner's session

  /** Receipt and ciphertext are immutable; `signer` is the invitation's deployment signer. */
  datatype OperatorState = OperatorState(
    generation: nat, phase: X.Phase, invitation: Digest, ciphertext: Digest, transcript: Digest, signer: Id,
    phrase: seq<string>, confirmed: Option<Digest>)
  {
    /** `validateShape`. */
    predicate ValidShape() {
      && generation > 0 && |phrase| == 6
      && match phase
         case PendingComparison => confirmed.None?
         case Cancelled => confirmed.None?
         case TranscriptConfirmed => confirmed == Some(transcript)
         case _ => false
    }
  }

  class OperatorSession {
    var generation: nat
    var phase: X.Phase
    const invitation: Digest
    const ciphertext: Digest
    const transcript: Digest
    const signer: Id
    const phrase: seq<string>
    var confirmed: Option<Digest>

    constructor (s: OperatorState)
      ensures Snapshot() == s
    {
      generation, phase, confirmed := s.generation, s.phase, s.confirmed;
      invitation, ciphertext, transcript, signer, phrase := s.invitation, s.ciphertext, s.transcript, s.signer, s.phrase;
    }

    function Snapshot(): OperatorState
      reads this
    {
      OperatorState(generation, phase, invitation, ciphertext, transcript, signer, phrase, confirmed)
    }

    method ConfirmTargetWords(words: seq<string>) returns (outcome: X.Outcome)
      requires |words| == 3 && Snapshot().ValidShape()
      modifies this
      ensures Snapshot().ValidShape()
      ensures outcome.Unavailable? <==> !old(phase).PendingComparison?
      ensures outcome.Deferred? <==> old(phase).PendingComparison? && X.AllBlank(words)
      ensures outcome.Unavailable? || outcome.Deferred? ==> Snapshot() == old(Snapshot())
      ensures outcome.Confirmed? ==> X.GroupMatches(words, phrase[..3]) && phase.TranscriptConfirmed? && generation == old(generation) + 1
      ensures outcome.Mismatched? ==> !X.GroupMatches(words, phrase[..3]) && phase.Cancelled? && generation == old(generation) + 1
    {
      if phase != X.PendingComparison {
        return X.Unavailable;
      }
      if X.AllBlank(words) {
        return X.Deferred;
      }
      generation := generation + 1;
      if !X.GroupMatches(words, phrase[..3]) {
        phase, confirmed := X.Phase.Cancelled, None;
        return X.Mismatched;
      }
      phase, confirmed := X.TranscriptConfirmed, Some(transcript);
      return X.Outcome.Confirmed;
    }

    /** Gated reveal: no reverse word before the target's words were confirmed. */
    method ProvisionerWords() returns (words: Option<seq<string>>)
      requires Snapshot().ValidShape()
      ensures words == if phase.TranscriptConfirmed? then Some(phrase[3..]) else None
    {
      if phase != X.TranscriptConfirmed || confirmed != Some(transcript) {
        return None;
      }
      return Some(phrase[3..]);
    }

    /** Only a confirmed session signs, and only under the invitation's own signer. `sha` is the
        digest that the encoded result will have. */
    method BindResponse(response: L.Envelope, key: Id, sha: Digest) returns (bound: Option<X.BoundResponse>)
      requires Snapshot().ValidShape()
      ensures bound.Some? <==> phase.TranscriptConfirmed? && key == signer
      ensures bound.Some? ==> bound.value == Bound(Snapshot(), response, sha)
    {
      if phase != X.TranscriptConfirmed || confirmed != Some(transcript) || key != signer {
        return None;
      }
      return Some(X.BoundResponse(sha, key, invitation, ciphertext, transcript, response));
    }
  }

  function Bound(o: OperatorState, response: L.Envelope, sha: Digest): X.BoundResponse {
    X.BoundResponse(sha, o.signer, o.invitation, o.ciphertext, o.transcript, response)
  }

  // -------------------------------------------------------------------- the two parties

  predicate TargetHolds(sha: Sha, s: X.TargetState, p: Prepared) {
    && s.invitation.sha == sha(p.invitation) && s.request.sha == sha(p.request) && s.ciphertext == sha(p.ciphertext)
    && s.transcript == p.transcript && s.phrase == p.phrase
  }

  predicate OperatorHolds(sha: Sha, o: OperatorState, p: Prepared) {
    && o.invitation == sha(p.invitation) && o.ciphertext == sha(p.ciphertext)
    && o.transcript == p.transcript && o.phrase == p.phrase
  }

  predicate SpeakableVocabulary(v: seq<string>) {
    Vocabulary(v) && forall w <- v :: ComparisonWord(w)
  }

  lemma LowercaseStays(w: string)
    requires ComparisonWord(w)
    ensures X.Canonical(w) == w && X.TrimRight(X.TrimLeft(w)) == w
  {
    assert w[0] in w && w[|w| - 1] in w;
    assert X.TrimLeft(w) == w && X.TrimRight(w) == w;
    forall k | 0 <= k < |w|
      ensures X.ToLower(w[k]) == w[k]
    {
      assert w[k] in w;
    }
  }

  /** Words read out exactly are accepted, and are never taken for blanks. */
  lemma ExactWordsMatch(words: seq<string>)
    requires |words| == 3 && forall w <- words :: ComparisonWord(w)
    ensures X.GroupMatches(words, words) && !X.AllBlank(words)
  {
    forall k | 0 <= k < 3
      ensures X.Canonical(words[k]) == words[k]
    {
      LowercaseStays(words[k]);
    }
    X.GroupMatchesExactly(words, words);
    LowercaseStays(words[0]);
    assert words[0] in words;
  }

  lemma PhraseIsSpeakable(sha: Sha, v: seq<string>, t: Sum)
    requires SpeakableVocabulary(v)
    ensures |PhraseOf(sha, v, t)| == 6 && forall w <- PhraseOf(sha, v, t) :: ComparisonWord(w)
  {
  }

  /** The whole ceremony. Two sessions of one exchange, whose humans read the words out exactly,
      are both confirmed, and the target accepts what the operator binds. */
  method Exchange(
    sha: Sha, v: seq<string>, p: Prepared, target: X.TargetSession, operator: OperatorSession, response: L.Envelope, digest: Digest)
    returns (accepted: bool)
    requires SpeakableVocabulary(v) && p.phrase == PhraseOf(sha, v, p.transcript)
    requires TargetHolds(sha, target.Snapshot(), p) && OperatorHolds(sha, operator.Snapshot(), p)
    requires target.Snapshot().ValidShape() && operator.Snapshot().ValidShape()
    requires target.phase.PendingComparison? && operator.phase.PendingComparison?
    requires operator.signer == target.invitation.signer
    modifies target, operator
    ensures accepted && operator.phase.TranscriptConfirmed?
    ensures target.phase.ResponseVerified? && target.response == Some(Bound(operator.Snapshot(), response, digest))
  {
    PhraseIsSpeakable(sha, v, p.transcript);
    var spoken := target.phrase[..3];
    ExactWordsMatch(spoken);
    var heard := operator.ConfirmTargetWords(spoken);
    var reverse := operator.ProvisionerWords();
    ExactWordsMatch(reverse.value);
    var confirmed := target.ConfirmProvisionerWords(reverse.value);
    var bound := operator.BindResponse(response, operator.signer, digest);
    accepted := target.AcceptBoundResponse(bound.value);
  }

  /** Conversely: an operator output that the target accepts was bound by a session of the same
      invitation, request and ciphertext, or else SHA-256 collides on bytes that are given. */
  lemma AcceptedOutputIsOfThisExchange(
    sha: Sha, v: seq<string>, open: Opener, s: X.TargetState, tp: Prepared, o: OperatorState, op: Prepared,
    response: L.Envelope, digest: Digest)
    requires |v| == 2048 && TargetHolds(sha, s, tp) && OperatorHolds(sha, o, op)
    requires PrepareTarget(sha, v, tp.invitation, tp.request, tp.ciphertext) == Some(tp)
    requires PrepareOperator(sha, v, open, op.invitation, op.ciphertext) == Some(op)
    requires s.Binds(Bound(o, response, digest))
    ensures o.signer == s.invitation.signer
    ensures || op == tp
            || Collision(sha, TranscriptPreimage(op.invitation, op.request, op.ciphertext),
                         TranscriptPreimage(tp.invitation, tp.request, tp.ciphertext))
  {
    TranscriptNamesExchange(sha, op.invitation, op.request, op.ciphertext, tp.invitation, tp.request, tp.ciphertext);
  }

  /** A pair of sessions of two different exchanges can agree on the target's words only if the
      directional digests share their first 33 bits. */
  lemma MatchingWordsShare33Bits(sha: Sha, v: seq<string>, t: Sum, u: Sum)
    requires Vocabulary(v)
    ensures PhraseOf(sha, v, t)[..3] == PhraseOf(sha, v, u)[..3] <==>
      Slice(ComparisonDigest(sha, TARGET_DOMAIN, t), 0, 33) == Slice(ComparisonDigest(sha, TARGET_DOMAIN, u), 0, 33)
    ensures PhraseOf(sha, v, t)[3..] == PhraseOf(sha, v, u)[3..] <==>
      Slice(ComparisonDigest(sha, PROVISIONER_DOMAIN, t), 0, 33) == Slice(ComparisonDigest(sha, PROVISIONER_DOMAIN, u), 0, 33)
  {
    var a, b := ComparisonDigest(sha, TARGET_DOMAIN, t), ComparisonDigest(sha, TARGET_DOMAIN, u);
    var c, d := ComparisonDigest(sha, PROVISIONER_DOMAIN, t), ComparisonDigest(sha, PROVISIONER_DOMAIN, u);
    GroupCarries33Bits(v, a, b);
    GroupCarries33Bits(v, c, d);
    assert PhraseOf(sha, v, t)[..3] == Group(v, a) && PhraseOf(sha, v, u)[..3] == Group(v, b);
    assert PhraseOf(sha, v, t)[3..] == Group(v, c) && PhraseOf(sha, v, u)[3..] == Group(v, d);
  }
}
