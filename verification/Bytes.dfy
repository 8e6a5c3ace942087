/** Byte strings, and the few character codes the sources compare against. */
module Bytes {

  newtype byte = b: int | 0 <= b < 0x100

  type Text = seq<byte>

  const NUL: byte := 0x00
  const QUOTE: byte := 0x22
  const COLON: byte := 0x3A
  const COMMA: byte := 0x2C
  const BACKSLASH: byte := 0x5C
  const OPEN_BRACKET: byte := 0x5B
  const CLOSE_BRACKET: byte := 0x5D
  const OPEN_BRACE: byte := 0x7B
  const CLOSE_BRACE: byte := 0x7D
}
