/** UTF-8 as the servers write it (section 3 of RFC 3629); a `char` is a byte. */
module Utf8 {

  const MAX_CODE_POINT := 0x10FFFF

  /** `codePointToUTF8`; the bit masks and shifts are written as divisions. */
  function CodePointToUTF8(cp: nat): string {
    if cp <= 0x7F then [cp as char]
    else if cp <= 0x7FF then [(0xC0 + cp / 0x40 % 0x20) as char, Continuation(cp)]
    else if cp <= 0xFFFF then [(0xE0 + cp / 0x1000 % 0x10) as char, Continuation(cp / 0x40), Continuation(cp)]
    else if cp <= MAX_CODE_POINT then
      [(0xF0 + cp / 0x4_0000 % 0x8) as char, Continuation(cp / 0x1000), Continuation(cp / 0x40), Continuation(cp)]
    else []
  }

  function Continuation(bits: nat): char {
    (0x80 + bits % 0x40) as char
  }
}
