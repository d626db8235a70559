/** Code units, as wide as the C types. */
module Units {
  type Utf32 = bv32
  type Utf16 = bv16
  type Utf8 = bv8
}
