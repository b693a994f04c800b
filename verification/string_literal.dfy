/** Interpreted string literals of Go, section "String literals" of the Go
    language specification: the text between the quotes, read as a compiler
    reads it. */
module StringLiterals {
  import opened Wrappers
  import opened ByteStrings
  import opened Utf8

  const QUOTE: byte := 0x22
  const BACKSLASH: byte := 0x5C
  const NEWLINE: byte := 0x0A
  const BYTE_ORDER_MARK := 0xFEFF

  /** The number written with exactly these digits. */
  function Number(digits: bytes, base: nat): Option<nat> {
    if digits == [] then Some(0)
    else
      var front, last := Number(digits[..|digits| - 1], base), HexValue(digits[|digits| - 1]);
      if front.Some? && last.Some? && last.value < base then Some(front.value * base + last.value) else None
  }

  /** One element of a literal: the bytes it stands for and its length. */
  datatype Element = Element(value: bytes, size: nat)

  /** A single-character escape, by the character behind the backslash. */
  function Simple(b: byte): Option<byte> {
    if b == 0x61 then Some(0x07)
    else if b == 0x62 then Some(0x08)
    else if b == 0x66 then Some(0x0C)
    else if b == 0x6E then Some(0x0A)
    else if b == 0x72 then Some(0x0D)
    else if b == 0x74 then Some(0x09)
    else if b == 0x76 then Some(0x0B)
    else if b == BACKSLASH then Some(BACKSLASH)
    else if b == QUOTE then Some(QUOTE)
    else None
  }

  /** An escape that gives a byte by its digits. */
  function ByteEscape(digits: bytes, base: nat, size: nat): Option<Element> {
    match Number(digits, base)
    case None => None
    case Some(n) => if n < 256 then Some(Element([n], size)) else None
  }

  /** An escape that gives a character by its code point. */
  function RuneEscape(digits: bytes, size: nat): Option<Element> {
    match Number(digits, 16)
    case None => None
    case Some(n) => if IsRune(n) then Some(Element(EncodeRune(n), size)) else None
  }

  /** The escape behind a backslash. */
  function Escape(s: bytes): Option<Element> {
    if s == [] then None
    else if Simple(s[0]).Some? then Some(Element([Simple(s[0]).value], 2))
    else if s[0] == 0x78 then if |s| < 3 then None else ByteEscape(s[1..3], 16, 4)
    else if 0x30 <= s[0] <= 0x37 then if |s| < 3 then None else ByteEscape(s[..3], 8, 4)
    else if s[0] == 0x75 then if |s| < 5 then None else RuneEscape(s[1..5], 6)
    else if s[0] == 0x55 then if |s| < 9 then None else RuneEscape(s[1..9], 10)
    else None
  }

  /** The first element: an escape, or a character of the source text other than
      a quote or a newline. Source text is UTF-8; it may be refused for a NUL or a
      byte order mark, so a portable literal has neither. */
  function Next(s: bytes): Option<Element> {
    if s == [] || s[0] == QUOTE || s[0] == NEWLINE || s[0] == 0 then None
    else if s[0] == BACKSLASH then Escape(s[1..])
    else
      match DecodeRune(s)
      case None => None
      case Some((r, size)) => if r == BYTE_ORDER_MARK then None else Some(Element(s[..size], size))
  }

  /** The bytes that the literal stands for; nothing if it is ill-formed. */
  function Read(s: bytes): Option<bytes>
    decreases |s|
  {
    if s == [] then Some([])
    else
      match Next(s)
      case None => None
      case Some(e) =>
        if e.size == 0 || e.size > |s| then None
        else
          match Read(s[e.size..])
          case None => None
          case Some(rest) => Some(e.value + rest)
  }
}
