/**
  The transcript digest and the comparison words that it yields.
  Source: internal/enrollmentexchange/phrase.go.
*/
module Phrase {
  import opened Common
  import opened Framing
  import opened Padding

  // ---------------------------------------------------------------- bits of a digest

  /** Bit `offset` in network order, as the code reads it. */
  function Bit(d: Bytes, offset: nat): nat
    requires offset < 8 * |d|
  {
    d[offset / 8] / Pow2(7 - offset % 8) % 2
  }

  /** `count` bits from `offset` on, read as one number. */
  function Slice(d: Bytes, offset: nat, count: nat): nat
    requires offset + count <= 8 * |d|
  {
    if count == 0 then 0 else 2 * Slice(d, offset, count - 1) + Bit(d, offset + count - 1)
  }

  /** `wordIndex`: eleven bits, accumulated one by one. */
  method WordIndex(d: Sum, word: nat) returns (index: nat)
    requires 11 * word + 11 <= 256
    ensures index == Slice(d, 11 * word, 11) && index < 2048
  {
    index := 0;
    for bit := 0 to 11
      invariant index == Slice(d, 11 * word, bit) && index < Pow2(bit)
    {
      var offset := 11 * word + bit;
      SliceIsSmall(d, 11 * word, bit + 1);
      index := 2 * index + d[offset / 8] / Pow2(7 - offset % 8) % 2;
    }
    ByteWeight();
  }

  lemma {:induction false} SliceIsSmall(d: Bytes, offset: nat, count: nat)
    requires offset + count <= 8 * |d|
    ensures Slice(d, offset, count) < Pow2(count)
  {
    if count > 0 {
      SliceIsSmall(d, offset, count - 1);
    }
  }

  lemma {:induction false} PowersMultiply(a: nat, b: nat)
    ensures Pow2(a) * Pow2(b) == Pow2(a + b)
  {
    if b > 0 {
      PowersMultiply(a, b - 1);
      Doubles(Pow2(a), Pow2(b - 1));
    }
  }

  lemma Doubles(x: nat, w: nat)
    ensures x * (2 * w) == 2 * (x * w)
  {
  }

  /** Slices join: the bits of one followed by the bits of the next. */
  lemma {:induction false} SlicesJoin(d: Bytes, offset: nat, a: nat, b: nat)
    requires offset + a + b <= 8 * |d|
    ensures Slice(d, offset, a + b) == Slice(d, offset, a) * Pow2(b) + Slice(d, offset + a, b)
  {
    if b > 0 {
      SlicesJoin(d, offset, a, b - 1);
      Doubles(Slice(d, offset, a), Pow2(b - 1));
    }
  }

  lemma Distribute(a: nat, b: nat, w: nat)
    ensures (a + b) * w == a * w + b * w
  {
  }

  lemma AtLeastOnce(k: nat, w: nat)
    requires k >= 1
    ensures k * w >= w
  {
    Distribute(k - 1, 1, w);
  }

  /** A high part and a low part below its weight can be told from their sum. */
  lemma JoinIsInjective(x: nat, y: nat, x': nat, y': nat, w: nat)
    requires y < w && y' < w && x * w + y == x' * w + y'
    ensures x == x' && y == y'
  {
    if x < x' {
      Distribute(x, x' - x, w);
      AtLeastOnce(x' - x, w);
    } else if x' < x {
      Distribute(x', x - x', w);
      AtLeastOnce(x - x', w);
    }
  }

  /** The three indices of one direction determine the first 33 bits of the directional digest,
      and are determined by them. */
  lemma ThreeWordsAre33Bits(d: Sum, e: Sum)
    ensures Slice(d, 0, 33) == Slice(e, 0, 33) <==>
      Slice(d, 0, 11) == Slice(e, 0, 11) && Slice(d, 11, 11) == Slice(e, 11, 11) && Slice(d, 22, 11) == Slice(e, 22, 11)
  {
    SlicesJoin(d, 0, 22, 11);
    SlicesJoin(e, 0, 22, 11);
    SlicesJoin(d, 0, 11, 11);
    SlicesJoin(e, 0, 11, 11);
    SliceIsSmall(d, 11, 11);
    SliceIsSmall(e, 11, 11);
    SliceIsSmall(d, 22, 11);
    SliceIsSmall(e, 22, 11);
    if Slice(d, 0, 33) == Slice(e, 0, 33) {
      JoinIsInjective(Slice(d, 0, 22), Slice(d, 22, 11), Slice(e, 0, 22), Slice(e, 22, 11), Pow2(11));
      JoinIsInjective(Slice(d, 0, 11), Slice(d, 11, 11), Slice(e, 0, 11), Slice(e, 11, 11), Pow2(11));
    }
  }

  // ------------------------------------- a slice is a slice of the digest as one number

  lemma QuotientIs(x: nat, m: nat, q: nat, r: nat)
    requires m > 0 && r < m && x == q * m + r
    ensures x / m == q && x % m == r
  {
    JoinIsInjective(x / m, x % m, q, r, m);
  }

  lemma Regroup(q: nat, a: nat, b: nat)
    ensures q * b * a == q * (a * b)
  {
  }

  lemma Nested(q: nat, r: nat, s: nat, a: nat, b: nat)
    requires s < a && r < b
    ensures (q * b + r) * a + s == q * (a * b) + (r * a + s)
    ensures r * a + s < a * b
  {
    Distribute(q * b, r, a);
    Regroup(q, a, b);
    Distribute(r, b - r, a);
    AtLeastOnce(b - r, a);
    assert b * a == a * b;
  }

  lemma DivMod(x: nat, m: nat)
    requires m > 0
    ensures x == x / m * m + x % m && x % m < m
  {
  }

  lemma DivideTwice(x: nat, a: nat, b: nat)
    requires a > 0 && b > 0 && a * b > 0
    ensures x / (a * b) == x / a / b
  {
    var y := x / a;
    var q, r, s := y / b, y % b, x % a;
    DivMod(x, a);
    DivMod(y, b);
    Nested(q, r, s, a, b);
    QuotientIs(x, a * b, q, r * a + s);
  }

  lemma Weigh(w: nat, q: nat, p: nat)
    requires p * q == 128
    ensures 2 * (w * q) * p == w * 256
  {
    Regroup(w, p, q);
  }

  lemma LowQuotient(w: nat, b: nat, p: nat, q: nat)
    requires p > 0 && p * q == 128
    ensures (w * 256 + b) / p == 2 * (w * q) + b / p
  {
    Weigh(w, q, p);
    Distribute(2 * (w * q), b / p, p);
    DivMod(b, p);
    QuotientIs(w * 256 + b, p, 2 * (w * q) + b / p, b % p);
  }

  lemma EvenPart(u: nat, v: nat)
    ensures (2 * u + v) % 2 == v % 2
  {
  }

  /** The bits of its last byte are the low bits of a number. */
  lemma LowBits(w: nat, b: Byte, k: nat)
    requires k <= 7
    ensures (w * 256 + b) / Pow2(k) % 2 == b / Pow2(k) % 2
  {
    PowersMultiply(k, 7 - k);
    ByteWeight();
    LowQuotient(w, b, Pow2(k), Pow2(7 - k));
    EvenPart(w * Pow2(7 - k), b / Pow2(k));
  }

  lemma HighBits(w: nat, b: Byte, p: nat)
    requires p > 0
    ensures 256 * p > 0 && (w * 256 + b) / (256 * p) == w / p
  {
    DivideTwice(w * 256 + b, 256, p);
  }

  lemma {:induction false} BitOfNumber(d: Bytes, offset: nat)
    requires offset < 8 * |d|
    ensures Bit(d, offset) == Number(d) / Pow2(8 * |d| - 1 - offset) % 2
  {
    var n := |d| - 1;
    var init := d[..n];
    if offset < 8 * n {
      BitOfNumber(init, offset);
      var j := 8 * n - 1 - offset;
      PowersMultiply(8, j);
      ByteWeight();
      HighBits(Number(init), d[n], Pow2(j));
    } else {
      LowBits(Number(init), d[n], 7 - offset % 8);
    }
  }

  lemma ByteWeight()
    ensures Pow2(7) == 128 && Pow2(8) == 256 && Pow2(11) == 2048
  {
    assert Pow2(4) == 16;
  }

  lemma SliceStep(n: nat, p: nat, h: nat, s: nat, bit: nat)
    requires p > 0 && h > 0 && s == n / (2 * p) % h && bit == n / p % 2
    ensures 2 * s + bit == n / p % (2 * h)
  {
    var x := n / p;
    DivideTwice(n, p, 2);
    assert s == x / 2 % h;
    var q := x / 2 / h;
    assert x / 2 == q * h + s;
    assert x == 2 * (q * h) + 2 * s + bit;
    assert 2 * (q * h) == q * (2 * h);
    QuotientIs(x, 2 * h, q, 2 * s + bit);
  }

  /** A slice of the digest is that slice of its 256-bit value. */
  lemma {:induction false} SliceOfNumber(d: Bytes, offset: nat, count: nat)
    requires offset + count <= 8 * |d|
    ensures Slice(d, offset, count) == Number(d) / Pow2(8 * |d| - offset - count) % Pow2(count)
  {
    if count > 0 {
      var low := 8 * |d| - offset - count;
      SliceOfNumber(d, offset, count - 1);
      BitOfNumber(d, offset + count - 1);
      assert Pow2(low + 1) == 2 * Pow2(low) && Pow2(count) == 2 * Pow2(count - 1);
      SliceStep(Number(d), Pow2(low), Pow2(count - 1), Slice(d, offset, count - 1), Bit(d, offset + count - 1));
    }
  }

  // --------------------------------------------------------------------- transcript

  const TRANSCRIPT_DOMAIN := "OwnTransit enrollment transcript v1"
  const TARGET_DOMAIN := "OwnTransit enrollment target-to-provisioner words v1"
  const PROVISIONER_DOMAIN := "OwnTransit enrollment provisioner-to-target words v1"

  function TranscriptPreimage(invitation: Bytes, request: Bytes, ciphertext: Bytes): Bytes {
    NulTerminated(TRANSCRIPT_DOMAIN) + Field(invitation) + Field(request) + Field(ciphertext)
  }

  predicate TranscriptSizes(invitation: Bytes, request: Bytes, ciphertext: Bytes) {
    && 0 < |invitation| <= MAX_INVITATION && 0 < |request| <= MAX_REQUEST
    && 0 < |ciphertext| <= MAX_ENCRYPTED_REQUEST
  }

  function TranscriptDigest(sha: Sha, invitation: Bytes, request: Bytes, ciphertext: Bytes): Option<Sum> {
    if TranscriptSizes(invitation, request, ciphertext) then Some(sha(TranscriptPreimage(invitation, request, ciphertext))) else None
  }

  lemma FieldsSplit(d: Bytes, i: Bytes, r: Bytes, c: Bytes, i': Bytes, r': Bytes, c': Bytes)
    requires TranscriptSizes(i, r, c) && TranscriptSizes(i', r', c')
    requires d + Field(i) + Field(r) + Field(c) == d + Field(i') + Field(r') + Field(c')
    ensures i == i' && r == r' && c == c'
  {
    var x, x' := Field(i) + (Field(r) + (Field(c) + [])), Field(i') + (Field(r') + (Field(c') + []));
    assert d + Field(i) + Field(r) + Field(c) == d + x && d + Field(i') + Field(r') + Field(c') == d + x';
    assert (d + x)[|d|..] == x && (d + x')[|d|..] == x';
    FieldSplits(i, Field(r) + (Field(c) + []), i', Field(r') + (Field(c') + []));
    FieldSplits(r, Field(c) + [], r', Field(c') + []);
    FieldSplits(c, [], c', []);
  }

  /** The framing is exact: one preimage for each invitation, request and ciphertext. */
  lemma PreimageIsExact(i: Bytes, r: Bytes, c: Bytes, i': Bytes, r': Bytes, c': Bytes)
    requires TranscriptSizes(i, r, c) && TranscriptSizes(i', r', c')
    requires TranscriptPreimage(i, r, c) == TranscriptPreimage(i', r', c')
    ensures i == i' && r == r' && c == c'
  {
    FieldsSplit(NulTerminated(TRANSCRIPT_DOMAIN), i, r, c, i', r', c');
  }

  /** Two different byte strings with one digest. */
  predicate Collision(sha: Sha, x: Bytes, y: Bytes) {
    x != y && sha(x) == sha(y)
  }

  /** One transcript digest stands for one exchange, unless SHA-256 itself collides. */
  lemma TranscriptNamesExchange(sha: Sha, i: Bytes, r: Bytes, c: Bytes, i': Bytes, r': Bytes, c': Bytes)
    requires TranscriptDigest(sha, i, r, c).Some? && TranscriptDigest(sha, i, r, c) == TranscriptDigest(sha, i', r', c')
    ensures (i == i' && r == r' && c == c') || Collision(sha, TranscriptPreimage(i, r, c), TranscriptPreimage(i', r', c'))
  {
    if TranscriptPreimage(i, r, c) == TranscriptPreimage(i', r', c') {
      PreimageIsExact(i, r, c, i', r', c');
    }
  }

  // --------------------------------------------------------------------- vocabulary

  /** Byte order of text. */
  predicate Before(a: string, b: string) {
    b != "" && (a == "" || a[0] < b[0] || (a[0] == b[0] && Before(a[1..], b[1..])))
  }

  lemma {:induction false} BeforeIsTransitive(a: string, b: string, c: string)
    requires Before(a, b) && Before(b, c)
    ensures Before(a, c)
  {
    if a != "" && a[0] == b[0] && b[0] == c[0] {
      BeforeIsTransitive(a[1..], b[1..], c[1..]);
    }
  }

  lemma {:induction false} BeforeIsStrict(a: string)
    ensures !Before(a, a)
  {
    if a != "" {
      BeforeIsStrict(a[1..]);
    }
  }

  predicate Word(w: string) {
    w != "" && Lowercase(w)
  }

  /** What loading the word list checks. */
  predicate Vocabulary(v: seq<string>) {
    && |v| == 2048 && (forall k | 0 <= k < |v| :: Word(v[k]))
    && (forall k {:trigger v[k]} | 0 < k < |v| :: Before(v[k - 1], v[k]))
  }

  /** The loop of `wordList` over the split lines. */
  method CheckVocabulary(values: seq<string>) returns (ok: bool)
    ensures ok <==> Vocabulary(values)
  {
    if |values| != 2048 {
      return false;
    }
    var previous := "";
    for i := 0 to |values|
      invariant previous == if i == 0 then "" else values[i - 1]
      invariant forall k | 0 <= k < i :: Word(values[k])
      invariant forall k {:trigger values[k]} | 0 < k < i :: Before(values[k - 1], values[k])
    {
      if values[i] == "" || !Before(previous, values[i]) || !Word(values[i]) {
        return false;
      }
      previous := values[i];
    }
    return true;
  }

  /** The words, each on its own line. */
  function AsLines(words: seq<string>): string {
    if words == [] then "" else words[0] + "\n" + AsLines(words[1..])
  }

  function FirstLine(t: string): string {
    if t == "" || t[0] == '\n' then "" else [t[0]] + FirstLine(t[1..])
  }

  lemma {:induction false} FirstLineIsPrefix(t: string)
    ensures FirstLine(t) <= t
    ensures |FirstLine(t)| < |t| ==> t[|FirstLine(t)|] == '\n'
  {
    if t != "" && t[0] != '\n' {
      FirstLineIsPrefix(t[1..]);
    }
  }

  /** `strings.Split` of a newline-terminated text without its last newline. */
  function Lines(t: string): seq<string>
    decreases |t|
  {
    FirstLineIsPrefix(t);
    var line := FirstLine(t);
    if |line| + 1 >= |t| then [line] else [line] + Lines(t[|line| + 1..])
  }

  predicate Terminated(t: string) {
    t != "" && t[|t| - 1] == '\n'
  }

  lemma {:induction false} LinesAreAll(t: string)
    requires Terminated(t)
    ensures AsLines(Lines(t)) == t
    decreases |t|
  {
    FirstLineIsPrefix(t);
    var line := FirstLine(t);
    assert |line| < |t| by {
      assert |line| == |t| ==> line[|t| - 1] == '\n';
      FirstLineHasNoBreak(t);
    }
    var rest := t[|line| + 1..];
    assert t == line + "\n" + rest;
    if rest == "" {
      assert AsLines([line]) == line + "\n" + AsLines([]);
    } else {
      LinesAreAll(rest);
      assert ([line] + Lines(rest))[1..] == Lines(rest);
    }
  }

  lemma {:induction false} FirstLineHasNoBreak(t: string)
    ensures forall k | 0 <= k < |FirstLine(t)| :: FirstLine(t)[k] != '\n'
  {
    if t != "" && t[0] != '\n' {
      FirstLineHasNoBreak(t[1..]);
    }
  }

  lemma {:induction false} LineEnds(w: string, rest: string)
    requires forall k | 0 <= k < |w| :: w[k] != '\n'
    ensures FirstLine(w + "\n" + rest) == w
  {
    if w != "" {
      LineEnds(w[1..], rest);
      assert (w + "\n" + rest)[1..] == w[1..] + "\n" + rest;
    }
  }

  lemma LinesAfter(w: string, rest: string)
    requires forall k | 0 <= k < |w| :: w[k] != '\n'
    ensures Lines(w + "\n" + rest) == [w] + (if rest == "" then [] else Lines(rest))
  {
    LineEnds(w, rest);
    assert (w + "\n" + rest)[|w| + 1..] == rest;
  }

  lemma {:induction false} LinesAreTerminated(v: seq<string>)
    requires v != []
    ensures Terminated(AsLines(v))
  {
    var rest := AsLines(v[1..]);
    if v[1..] != [] {
      LinesAreTerminated(v[1..]);
      assert (v[0] + "\n" + rest)[|v[0]| + |rest|] == rest[|rest| - 1];
    }
  }

  lemma {:induction false} WordsAreLines(v: seq<string>)
    requires v != [] && forall k | 0 <= k < |v| :: Word(v[k])
    ensures Lines(AsLines(v)) == v
  {
    assert Word(v[0]);
    var rest := v[1..];
    LinesAfter(v[0], AsLines(rest));
    if rest != [] {
      WordsAreLines(rest);
      LinesAreTerminated(rest);
    }
    assert v == [v[0]] + rest;
  }

  /** `wordList`: the embedded text must be the pinned one; then it is exactly 2048 words in
      strict order, one on each line. */
  method LoadVocabulary(text: string, digest: string -> Sum, pinned: Sum) returns (words: Option<seq<string>>)
    ensures words.Some? ==> digest(text) == pinned && Vocabulary(words.value) && AsLines(words.value) == text
    ensures digest(text) == pinned && (exists v {:trigger AsLines(v)} :: Vocabulary(v) && AsLines(v) == text) ==> words.Some?
  {
    forall v {:trigger AsLines(v)} | Vocabulary(v) && AsLines(v) == text
      ensures Terminated(text) && Lines(text) == v
    {
      WordsAreLines(v);
      LinesAreTerminated(v);
    }
    if digest(text) != pinned || !Terminated(text) {
      return None;
    }
    var values := Lines(text);
    LinesAreAll(text);
    var ok := CheckVocabulary(values);
    return if ok then Some(values) else None;
  }

  lemma {:induction false} VocabularyIsOrdered(v: seq<string>, i: nat, j: nat)
    requires Vocabulary(v) && i < j < |v|
    ensures Before(v[i], v[j])
  {
    if i + 1 < j {
      VocabularyIsOrdered(v, i, j - 1);
      assert Before(v[j - 1], v[j]);
      BeforeIsTransitive(v[i], v[j - 1], v[j]);
    } else {
      assert Before(v[j - 1], v[j]);
    }
  }

  /** Words and indices determine each other. */
  lemma WordsAreDistinct(v: seq<string>, i: nat, j: nat)
    requires Vocabulary(v) && i < |v| && j < |v| && v[i] == v[j]
    ensures i == j
  {
    BeforeIsStrict(v[i]);
    if i < j {
      VocabularyIsOrdered(v, i, j);
    } else if j < i {
      VocabularyIsOrdered(v, j, i);
    }
  }

  // ------------------------------------------------------------------------- phrase

  function ComparisonDigest(sha: Sha, domain: string, transcript: Sum): Sum {
    sha(NulTerminated(domain) + transcript)
  }

  function IndexAt(d: Sum, word: nat): (index: nat)
    requires word < 3
    ensures index < 2048
  {
    SliceIsSmall(d, 11 * word, 11);
    ByteWeight();
    Slice(d, 11 * word, 11)
  }

  function Group(v: seq<string>, d: Sum): seq<string>
    requires |v| == 2048
  {
    [v[IndexAt(d, 0)], v[IndexAt(d, 1)], v[IndexAt(d, 2)]]
  }

  /** Three words read by the target, then three read by the provisioner. */
  function PhraseOf(sha: Sha, v: seq<string>, transcript: Sum): seq<string>
    requires |v| == 2048
  {
    Group(v, ComparisonDigest(sha, TARGET_DOMAIN, transcript)) + Group(v, ComparisonDigest(sha, PROVISIONER_DOMAIN, transcript))
  }

  /** `phraseFromTranscriptDigest`. */
  method PhraseFromTranscript(sha: Sha, v: seq<string>, transcript: Sum) returns (phrase: array<string>)
    requires |v| == 2048
    ensures phrase[..] == PhraseOf(sha, v, transcript)
  {
    var target, provisioner := ComparisonDigest(sha, TARGET_DOMAIN, transcript), ComparisonDigest(sha, PROVISIONER_DOMAIN, transcript);
    phrase := new string[6];
    for word := 0 to 3
      invariant forall k | 0 <= k < word :: phrase[k] == Group(v, target)[k] && phrase[3 + k] == Group(v, provisioner)[k]
    {
      var t := WordIndex(target, word);
      var p := WordIndex(provisioner, word);
      phrase[word] := v[t];
      phrase[3 + word] := v[p];
    }
  }

  /** A group of words carries exactly the first 33 bits of its directional digest. */
  lemma GroupCarries33Bits(v: seq<string>, d: Sum, e: Sum)
    requires Vocabulary(v)
    ensures Group(v, d) == Group(v, e) <==> Slice(d, 0, 33) == Slice(e, 0, 33)
  {
    ThreeWordsAre33Bits(d, e);
    assert IndexAt(d, 0) == Slice(d, 0, 11) && IndexAt(d, 1) == Slice(d, 11, 11) && IndexAt(d, 2) == Slice(d, 22, 11);
    assert IndexAt(e, 0) == Slice(e, 0, 11) && IndexAt(e, 1) == Slice(e, 11, 11) && IndexAt(e, 2) == Slice(e, 22, 11);
    if Group(v, d) == Group(v, e) {
      assert Group(v, d)[0] == Group(v, e)[0] && Group(v, d)[1] == Group(v, e)[1] && Group(v, d)[2] == Group(v, e)[2];
      WordsAreDistinct(v, IndexAt(d, 0), IndexAt(e, 0));
      WordsAreDistinct(v, IndexAt(d, 1), IndexAt(e, 1));
      WordsAreDistinct(v, IndexAt(d, 2), IndexAt(e, 2));
    }
  }
}
