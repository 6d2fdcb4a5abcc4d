/** The parts of JavaScript's numbers and strings that several modules need. */
module Javascript {
  /** Number.MAX_SAFE_INTEGER. */
  const MAX_SAFE_INTEGER: nat := 9007199254740991

  /** toLowerCase, for the letters that matter in hexadecimal text. */
  function LowerChar(c: char): char {
    if 'A' <= c <= 'Z' then c + 32 as char else c
  }

  function Lower(s: string): (r: string)
    ensures |r| == |s|
  {
    seq(|s|, i requires 0 <= i < |s| => LowerChar(s[i]))
  }

  /** White space and line ends in the sense of the number conversions. */
  predicate IsWhite(c: char) {
    || '\t' <= c <= '\r' || c == ' ' || c == '\U{00A0}' || c == '\U{1680}' || '\U{2000}' <= c <= '\U{200A}'
    || c == '\U{2028}' || c == '\U{2029}' || c == '\U{202F}' || c == '\U{205F}' || c == '\U{3000}' || c == '\U{FEFF}'
  }
}
