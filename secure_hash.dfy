/**
 * The simulated salted hash that protects biometric templates: a 31-multiplier
 * rolling hash over the character codes of `data + salt` (one code per
 * character, which is what `charCodeAt` reads for text inside the Basic
 * Multilingual Plane), kept in signed 32-bit range the way JavaScript's `<<`
 * and `&` operators keep it, then its absolute value in lower-case
 * hexadecimal, left-padded with zeros to 64 characters.
 */
module SecureHash {
  import opened Text

  const TWO_31: int := 0x8000_0000
  const TWO_32: int := 0x1_0000_0000

  /** The width the digest is padded to (the length of a SHA-256 hex digest). */
  const DIGEST_LENGTH: nat := 64

  predicate IsInt32(x: int) {
    -TWO_31 <= x < TWO_31
  }

  /** ECMAScript ToInt32: the signed 32-bit value congruent to `x` modulo 2^32. */
  function ToInt32(x: int): (r: int)
    ensures IsInt32(r)
    ensures (x - r) % TWO_32 == 0
    ensures IsInt32(x) ==> r == x
  {
    var m := x % TWO_32;
    if m >= TWO_31 then m - TWO_32 else m
  }

  /**
   * The code of one character: its Unicode scalar value. This agrees with
   * `charCodeAt` only inside the Basic Multilingual Plane; outside it,
   * `charCodeAt` reads two UTF-16 code units.
   */
  function CharCode(c: char): nat {
    c as int
  }

  /**
   * One round of the loop: `hash = (hash << 5) - hash + char` followed by
   * `hash = hash & hash`. The shift wraps to 32 bits; the subtraction and
   * addition are exact on doubles at these magnitudes; `&` wraps again.
   */
  function Step(hash: int, c: char): (r: int)
    ensures IsInt32(r)
  {
    ToInt32(ToInt32(ToInt32(hash) * 32) - hash + CharCode(c))
  }

  /** The value of `hash` after the loop has consumed all of `s`. */
  function Rolling(s: string): (r: int)
    decreases |s|
  {
    if s == [] then 0 else Step(Rolling(s[..|s| - 1]), s[|s| - 1])
  }

  function Abs(x: int): nat {
    if x < 0 then -x else x
  }

  /** The digest of the already-combined string `data + salt`. */
  function Digest(combined: string): string {
    PadStart(Hex(Abs(Rolling(combined))), DIGEST_LENGTH, '0')
  }

  /** Every digest is exactly 64 characters long, whatever the input. */
  lemma DigestLength(combined: string)
    ensures |Digest(combined)| == DIGEST_LENGTH
  {
    var h := Abs(Rolling(combined));
    assert h <= TWO_31;
    assert Pow16(8) == TWO_32;
    HexLengthBound(h, 8);
  }

  /** Every digest is made of hexadecimal digits only. */
  lemma DigestIsHex(combined: string)
    ensures forall i :: 0 <= i < |Digest(combined)| ==> Digest(combined)[i] in "0123456789abcdef"
  {
    HexDigits(Abs(Rolling(combined)));
  }

  lemma {:induction false} HexDigits(n: nat)
    ensures forall i :: 0 <= i < |Hex(n)| ==> Hex(n)[i] in "0123456789abcdef"
    decreases n
  {
    if n >= 16 {
      HexDigits(n / 16);
    }
  }

  /**
   * `secureHash(data, salt)` with `data` already serialised to text (a string
   * argument is used as is; an embedding is passed through JSON first).
   */
  method Hash(data: string, salt: string) returns (digest: string)
    ensures digest == Digest(data + salt)
    ensures |digest| == DIGEST_LENGTH
  {
    var combined := data + salt;
    var hash := 0;
    var i := 0;
    while i < |combined|
      invariant 0 <= i <= |combined|
      invariant hash == Rolling(combined[..i])
    {
      assert combined[..i + 1][..i] == combined[..i];
      hash := Step(hash, combined[i]);
      i := i + 1;
    }
    assert combined[..|combined|] == combined;
    digest := PadStart(Hex(Abs(hash)), DIGEST_LENGTH, '0');
    DigestLength(combined);
  }
}
