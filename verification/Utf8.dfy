/** UTF-8 as the parser decodes it: valid characters stay, every invalid run becomes U+FFFD. */
module Utf8 {
  import opened Words
  import opened Bytes

  /** The replacement character. */
  const REPLACEMENT: bytes := [0xEF, 0xBF, 0xBD]

  predicate IsContinuation(b: bytes, i: nat) {
    i < |b| && 0x80 <= b[i] <= 0xBF
  }

  /** The second byte of a character that starts with `b[0]`, by table 3-7 of the Unicode Standard. */
  predicate SecondFits(b: bytes) {
    IsContinuation(b, 1) &&
    match b[0]
    case 0xE0 => 0xA0 <= b[1]
    case 0xED => b[1] <= 0x9F
    case 0xF0 => 0x90 <= b[1]
    case 0xF4 => b[1] <= 0x8F
    case _ => true
  }

  /** How many bytes the first byte announces; 0 if none can start with it. */
  function Announced(b: bytes): nat
    requires b != []
  {
    if b[0] < 0x80 then 1
    else if 0xC2 <= b[0] <= 0xDF then 2
    else if 0xE0 <= b[0] <= 0xEF then 3
    else if 0xF0 <= b[0] <= 0xF4 then 4
    else 0
  }

  /** How many bytes from the first on could still be part of one character. */
  function Progress(b: bytes): nat
    requires b != []
  {
    if Announced(b) < 2 || !SecondFits(b) then 1
    else if Announced(b) == 2 || !IsContinuation(b, 2) then 2
    else if Announced(b) == 3 || !IsContinuation(b, 3) then 3
    else 4
  }

  /** The text starts with a character. */
  predicate StartsChar(b: bytes) {
    b != [] && Progress(b) == Announced(b)
  }

  lemma ProgressFits(b: bytes)
    requires b != []
    ensures 1 <= Progress(b) <= |b|
  {
  }

  predicate Valid(b: bytes)
    decreases |b|
  {
    if b == [] then true
    else
      ProgressFits(b);
      StartsChar(b) && Valid(b[Progress(b)..])
  }

  /** `String::from_utf8_lossy`, as bytes. */
  function Lossy(b: bytes): bytes
    decreases |b|
  {
    if b == [] then []
    else
      ProgressFits(b);
      (if StartsChar(b) then b[..Progress(b)] else REPLACEMENT) + Lossy(b[Progress(b)..])
  }

  /** The decoder as a value: the parser's proofs never look inside it. */
  const FromUtf8Lossy: bytes -> bytes := (b: bytes) => Lossy(b)

  // ---- Decoding is the identity on exactly the valid texts ----

  lemma {:induction false} LossyKeepsValid(b: bytes)
    requires Valid(b)
    ensures Lossy(b) == b
    decreases |b|
  {
    if b != [] {
      ProgressFits(b);
      LossyKeepsValid(b[Progress(b)..]);
      assert b == b[..Progress(b)] + b[Progress(b)..];
    }
  }

  /** A whole character is recognised whatever follows it. */
  lemma CharThen(c: bytes, rest: bytes)
    requires StartsChar(c) && Progress(c) == |c|
    ensures StartsChar(c + rest) && Progress(c + rest) == |c|
  {
    assert forall i | 0 <= i < |c| :: (c + rest)[i] == c[i];
  }

  lemma FirstChar(b: bytes)
    requires StartsChar(b)
    ensures Progress(b) <= |b| && StartsChar(b[..Progress(b)]) && Progress(b[..Progress(b)]) == Progress(b)
  {
    var c := b[..Progress(b)];
    assert forall i | 0 <= i < |c| :: c[i] == b[i];
  }

  lemma {:induction false} LossyIsValid(b: bytes)
    ensures Valid(Lossy(b))
    decreases |b|
  {
    if b != [] {
      ProgressFits(b);
      LossyIsValid(b[Progress(b)..]);
      var rest := Lossy(b[Progress(b)..]);
      var c := if StartsChar(b) then b[..Progress(b)] else REPLACEMENT;
      if StartsChar(b) {
        FirstChar(b);
      }
      CharThen(c, rest);
      assert (c + rest)[|c|..] == rest;
    }
  }

  /** The parser returns a text unchanged if and only if it is valid. */
  lemma LossyIsIdentity(b: bytes)
    ensures Lossy(b) == b <==> Valid(b)
  {
    LossyIsValid(b);
    if Valid(b) {
      LossyKeepsValid(b);
    }
  }

  // ---- Characters are the encoded scalar values ----

  /** A Unicode scalar value: any code point but a surrogate. */
  predicate Scalar(cp: nat) {
    cp < 0xD800 || 0xE000 <= cp <= 0x10FFFF
  }

  /** Its UTF-8 form, six bits to a continuation: section 3 of RFC 3629. */
  function EncodeChar(cp: nat): bytes
    requires Scalar(cp)
  {
    if cp < 0x80 then [cp]
    else if cp < 0x800 then [0xC0 + cp / 0x40, 0x80 + cp % 0x40]
    else if cp < 0x1_0000 then [0xE0 + cp / 0x40 / 0x40, 0x80 + cp / 0x40 % 0x40, 0x80 + cp % 0x40]
    else [0xF0 + cp / 0x40 / 0x40 / 0x40, 0x80 + cp / 0x40 / 0x40 % 0x40, 0x80 + cp / 0x40 % 0x40, 0x80 + cp % 0x40]
  }

  /** What a scalar value encodes to is recognised as one character, whatever follows. */
  lemma EncodedIsChar(cp: nat, rest: bytes)
    requires Scalar(cp)
    ensures StartsChar(EncodeChar(cp) + rest) && Progress(EncodeChar(cp) + rest) == |EncodeChar(cp)|
  {
    EncodedAlone(cp);
    CharThen(EncodeChar(cp), rest);
  }

  lemma EncodedAlone(cp: nat)
    requires Scalar(cp)
    ensures StartsChar(EncodeChar(cp)) && Progress(EncodeChar(cp)) == |EncodeChar(cp)|
  {
  }

  /** A continuation byte adds six bits. */
  function Then(high: nat, c: u8): nat
    requires 0x80 <= c < 0xC0
  {
    0x40 * high + (c as int - 0x80)
  }

  lemma ThenSplits(high: nat, c: u8)
    requires 0x80 <= c < 0xC0
    ensures Then(high, c) / 0x40 == high && 0x80 + Then(high, c) % 0x40 == c
  {
  }

  lemma TwoBytesEncode(b: bytes) returns (cp: nat)
    requires 2 <= |b| && 0xC2 <= b[0] <= 0xDF && SecondFits(b)
    ensures Scalar(cp) && EncodeChar(cp) == b[..2]
  {
    cp := Then(b[0] as int - 0xC0, b[1]);
    ThenSplits(b[0] as int - 0xC0, b[1]);
  }

  lemma ThreeBytesEncode(b: bytes) returns (cp: nat)
    requires 3 <= |b| && 0xE0 <= b[0] <= 0xEF && SecondFits(b) && IsContinuation(b, 2)
    ensures Scalar(cp) && EncodeChar(cp) == b[..3]
  {
    var high := Then(b[0] as int - 0xE0, b[1]);
    ThenSplits(b[0] as int - 0xE0, b[1]);
    cp := Then(high, b[2]);
    ThenSplits(high, b[2]);
  }

  lemma TopBytes(b: bytes) returns (top: nat)
    requires 2 <= |b| && 0xF0 <= b[0] <= 0xF4 && SecondFits(b)
    ensures 0x10 <= top <= 0x10F && 0xF0 + top / 0x40 == b[0] && 0x80 + top % 0x40 == b[1]
  {
    top := Then(b[0] as int - 0xF0, b[1]);
    ThenSplits(b[0] as int - 0xF0, b[1]);
  }

  lemma LowBytes(top: nat, c: u8, d: u8) returns (cp: nat)
    requires 0x10 <= top <= 0x10F && 0x80 <= c < 0xC0 && 0x80 <= d < 0xC0
    ensures 0x1_0000 <= cp <= 0x10FFFF
    ensures cp / 0x40 / 0x40 == top && 0x80 + cp / 0x40 % 0x40 == c && 0x80 + cp % 0x40 == d
  {
    cp := Then(Then(top, c), d);
    ThenSplits(top, c);
    ThenSplits(Then(top, c), d);
  }

  lemma FourBytesEncode(b: bytes) returns (cp: nat)
    requires 4 <= |b| && 0xF0 <= b[0] <= 0xF4 && SecondFits(b) && IsContinuation(b, 2) && IsContinuation(b, 3)
    ensures Scalar(cp) && EncodeChar(cp) == b[..4]
  {
    var top := TopBytes(b);
    cp := LowBytes(top, b[2], b[3]);
  }

  /** And every recognised character is what some scalar value encodes to. */
  lemma CharIsEncoded(b: bytes) returns (cp: nat)
    requires StartsChar(b)
    ensures Progress(b) <= |b| && Scalar(cp) && b[..Progress(b)] == EncodeChar(cp)
  {
    ProgressFits(b);
    if b[0] < 0x80 {
      cp := b[0];
    } else if b[0] < 0xE0 {
      cp := TwoBytesEncode(b);
    } else if b[0] < 0xF0 {
      cp := ThreeBytesEncode(b);
    } else {
      cp := FourBytesEncode(b);
    }
  }

  // ---- What is replaced ----

  /** These bytes begin some character and do not complete it. */
  ghost predicate BeginsChar(c: bytes) {
    exists cp | Scalar(cp) :: c < EncodeChar(cp)
  }

  lemma ContinuedBegins(c: bytes, more: bytes)
    requires StartsChar(c + more) && Progress(c + more) == |c + more| && more != []
    ensures BeginsChar(c)
  {
    var cp := CharIsEncoded(c + more);
    assert (c + more)[..|c + more|] == c + more;
  }

  /** Cut short after two or three good bytes, a character could still be completed. */
  lemma ProgressBegins(b: bytes)
    requires b != [] && !StartsChar(b) && Progress(b) > 1
    ensures Progress(b) <= |b| && BeginsChar(b[..Progress(b)])
  {
    ProgressFits(b);
    var c := b[..Progress(b)];
    assert c[0] == b[0] && c[1] == b[1];
    var more: bytes := if Announced(b) - |c| == 1 then [0x80] else [0x80, 0x80];
    assert (c + more)[0] == b[0] && (c + more)[1] == b[1];
    ContinuedBegins(c, more);
  }

  lemma NoCharFrom(b: bytes, whole: bytes)
    requires b != [] && !StartsChar(b) && Progress(b) < |b|
    requires StartsChar(whole) && Progress(whole) == |whole|
    ensures !(b[..Progress(b) + 1] <= whole)
  {
  }

  lemma ProgressEnds(b: bytes)
    requires b != [] && !StartsChar(b) && Progress(b) < |b|
    ensures !BeginsChar(b[..Progress(b) + 1])
  {
    forall cp | Scalar(cp) ensures !(b[..Progress(b) + 1] < EncodeChar(cp)) {
      EncodedAlone(cp);
      NoCharFrom(b, EncodeChar(cp));
    }
  }

  lemma ReplacementIs()
    ensures EncodeChar(0xFFFD) == REPLACEMENT
  {
  }

  lemma OneReplacement(b: bytes)
    requires b != [] && !StartsChar(b)
    ensures 1 <= Progress(b) <= |b| && Lossy(b) == REPLACEMENT + Lossy(b[Progress(b)..])
  {
    ProgressFits(b);
  }

  /**
   What starts no character is replaced piece by piece: the longest beginning of a character there, or one
   byte if there is none, gives one U+FFFD.
   */
  lemma InvalidIsReplaced(b: bytes) returns (k: nat)
    requires b != [] && !StartsChar(b)
    ensures 1 <= k <= |b| && Lossy(b) == EncodeChar(0xFFFD) + Lossy(b[k..])
    ensures k == 1 || BeginsChar(b[..k])
    ensures k < |b| ==> !BeginsChar(b[..k + 1])
  {
    k := Progress(b);
    OneReplacement(b);
    ReplacementIs();
    if k > 1 {
      ProgressBegins(b);
    }
    if k < |b| {
      ProgressEnds(b);
    }
  }

  lemma {:induction false} AsciiIsValid(b: bytes)
    requires forall i | 0 <= i < |b| :: b[i] < 0x80
    ensures Valid(b)
  {
    if b != [] {
      AsciiIsValid(b[1..]);
    }
  }

  // ---- Cutting a text ----

  /** The cut before byte `n` is at a character boundary. */
  predicate CutsBetween(b: bytes, n: nat) {
    !IsContinuation(b, n)
  }

  /** Inside a character every byte is a continuation, and what precedes it is not a text. */
  lemma InsideChar(b: bytes, n: nat)
    requires StartsChar(b) && 0 < n < Progress(b) <= |b|
    ensures IsContinuation(b, n) && !StartsChar(b[..n])
  {
    var c := b[..n];
    assert forall i | 0 <= i < n :: c[i] == b[i];
  }

  lemma CutBehind(b: bytes, k: nat, n: nat)
    requires k <= n <= |b|
    ensures b[..n] == b[..k] + b[k..][..n - k] && b[..n][k..] == b[k..][..n - k]
  {
  }

  /** What is left of a valid text is valid if and only if the cut is at a character boundary. */
  lemma {:induction false} CutIsValid(b: bytes, n: nat)
    requires Valid(b) && n <= |b|
    ensures Valid(b[..n]) <==> CutsBetween(b, n)
    decreases |b|
  {
    if b != [] && n > 0 {
      ProgressFits(b);
      var k := Progress(b);
      if n < k {
        InsideChar(b, n);
      } else {
        var c, rest := b[..k], b[k..];
        CutIsValid(rest, n - k);
        FirstChar(b);
        CharThen(c, rest[..n - k]);
        CutBehind(b, k, n);
        assert IsContinuation(b, n) <==> IsContinuation(rest, n - k);
      }
    }
  }
}
