/** The shapes of text a bundle's rules recognise. */
module Recognisers {
  import opened Digits
  import opened Texts

  const SECURE := "https://"
  const DIGEST_PREFIX := "sha256:"
  const DIGEST_DIGITS := 64
  const REVISION_DIGITS := 40
  const COMMIT_IMAGE := "main-"
  const COMMIT_IMAGE_DIGITS := 12
  const RELEASE_PARTS := 3

  predicate IsLower(c: char) {
    'a' <= c <= 'z'
  }

  /** An id: split at its hyphens it has no empty word, its characters are `a` to `z` and digits, and
      it starts with a letter. */
  predicate IsId(text: string) {
    && text != "" && IsLower(text[0])
    && forall word | word in Split(text, '-') ::
         word != "" && forall c | c in word :: IsLower(c) || IsDigit(c)
  }

  /** A release: split at its dots it is three decimals, each written the shortest way. */
  predicate IsRelease(text: string) {
    var parts := Split(text, '.');
    && |parts| == RELEASE_PARTS
    && forall part | part in parts ::
         part != "" && AllDigits(part) && (part == "0" || part[0] != '0')
  }

  predicate IsHex(text: string, digits: nat) {
    && |text| == digits
    && forall c | c in text :: IsDigit(c) || 'a' <= c <= 'f'
  }

  predicate IsDigest(text: string) {
    StartsWith(text, DIGEST_PREFIX) && IsHex(text[|DIGEST_PREFIX|..], DIGEST_DIGITS)
  }

  predicate IsCommitImage(text: string) {
    StartsWith(text, COMMIT_IMAGE) && IsHex(text[|COMMIT_IMAGE|..], COMMIT_IMAGE_DIGITS)
  }

  /** A day, `YYYY-MM-DD`: fixed widths of digits, a month of the year and a day some month has. */
  predicate IsDay(text: string) {
    var parts := Split(text, '-');
    && |parts| == 3
    && |parts[0]| == 4 && |parts[1]| == 2 && |parts[2]| == 2
    && AllDigits(parts[0]) && AllDigits(parts[1]) && AllDigits(parts[2])
    && 1 <= DigitsValue(parts[1]) <= 12
    && 1 <= DigitsValue(parts[2]) <= 31
  }
}
