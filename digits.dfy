/** The digits of Python's `str` predicates, after the Unicode 15.0
    character database that Python 3.12 carries: the characters with a
    decimal value (`str.isdecimal`, the ones `int()` reads), which come in
    runs of ten from a zero to a nine, and the further characters that
    `str.isdigit` accepts (superscripts, circled and parenthesised digits
    and the like), to which `int()` gives no value. */
module Digits {
  import opened Wrappers
  import opened Strings

  /** `c` lies in the run of ten decimal digits that starts at the code point `z`. */
  predicate InRun(c: int, z: int) {
    z <= c < z + 10
  }

  /** Where a run of decimal digits can start: the ASCII zero, or a code
      point whose run lies clear of every whitespace character. */
  predicate ZeroPlacement(z: int) {
    || z == '0' as int
    || (0xA0 < z && z + 10 <= 0x1680)
    || (0x1680 < z && z + 10 <= 0x2000)
    || z > 0x3000
  }

  /** The zero of the run of decimal digits holding `c`, one line per run;
      -1 when `c` has no decimal value. */
  function DecimalZero(c: int): (z: int)
    ensures z >= 0 ==> InRun(c, z) && ZeroPlacement(z)
  {
    if InRun(c, 0x30) then 0x30
    else if InRun(c, 0x660) then 0x660
    else if InRun(c, 0x6F0) then 0x6F0
    else if InRun(c, 0x7C0) then 0x7C0
    else if InRun(c, 0x966) then 0x966
    else if InRun(c, 0x9E6) then 0x9E6
    else if InRun(c, 0xA66) then 0xA66
    else if InRun(c, 0xAE6) then 0xAE6
    else if InRun(c, 0xB66) then 0xB66
    else if InRun(c, 0xBE6) then 0xBE6
    else if InRun(c, 0xC66) then 0xC66
    else if InRun(c, 0xCE6) then 0xCE6
    else if InRun(c, 0xD66) then 0xD66
    else if InRun(c, 0xDE6) then 0xDE6
    else if InRun(c, 0xE50) then 0xE50
    else if InRun(c, 0xED0) then 0xED0
    else if InRun(c, 0xF20) then 0xF20
    else if InRun(c, 0x1040) then 0x1040
    else if InRun(c, 0x1090) then 0x1090
    else if InRun(c, 0x17E0) then 0x17E0
    else if InRun(c, 0x1810) then 0x1810
    else if InRun(c, 0x1946) then 0x1946
    else if InRun(c, 0x19D0) then 0x19D0
    else if InRun(c, 0x1A80) then 0x1A80
    else if InRun(c, 0x1A90) then 0x1A90
    else if InRun(c, 0x1B50) then 0x1B50
    else if InRun(c, 0x1BB0) then 0x1BB0
    else if InRun(c, 0x1C40) then 0x1C40
    else if InRun(c, 0x1C50) then 0x1C50
    else if InRun(c, 0xA620) then 0xA620
    else if InRun(c, 0xA8D0) then 0xA8D0
    else if InRun(c, 0xA900) then 0xA900
    else if InRun(c, 0xA9D0) then 0xA9D0
    else if InRun(c, 0xA9F0) then 0xA9F0
    else if InRun(c, 0xAA50) then 0xAA50
    else if InRun(c, 0xABF0) then 0xABF0
    else if InRun(c, 0xFF10) then 0xFF10
    else if InRun(c, 0x104A0) then 0x104A0
    else if InRun(c, 0x10D30) then 0x10D30
    else if InRun(c, 0x11066) then 0x11066
    else if InRun(c, 0x110F0) then 0x110F0
    else if InRun(c, 0x11136) then 0x11136
    else if InRun(c, 0x111D0) then 0x111D0
    else if InRun(c, 0x112F0) then 0x112F0
    else if InRun(c, 0x11450) then 0x11450
    else if InRun(c, 0x114D0) then 0x114D0
    else if InRun(c, 0x11650) then 0x11650
    else if InRun(c, 0x116C0) then 0x116C0
    else if InRun(c, 0x11730) then 0x11730
    else if InRun(c, 0x118E0) then 0x118E0
    else if InRun(c, 0x11950) then 0x11950
    else if InRun(c, 0x11C50) then 0x11C50
    else if InRun(c, 0x11D50) then 0x11D50
    else if InRun(c, 0x11DA0) then 0x11DA0
    else if InRun(c, 0x11F50) then 0x11F50
    else if InRun(c, 0x16A60) then 0x16A60
    else if InRun(c, 0x16AC0) then 0x16AC0
    else if InRun(c, 0x16B50) then 0x16B50
    else if InRun(c, 0x1D7CE) then 0x1D7CE
    else if InRun(c, 0x1D7D8) then 0x1D7D8
    else if InRun(c, 0x1D7E2) then 0x1D7E2
    else if InRun(c, 0x1D7EC) then 0x1D7EC
    else if InRun(c, 0x1D7F6) then 0x1D7F6
    else if InRun(c, 0x1E140) then 0x1E140
    else if InRun(c, 0x1E2F0) then 0x1E2F0
    else if InRun(c, 0x1E4F0) then 0x1E4F0
    else if InRun(c, 0x1E950) then 0x1E950
    else if InRun(c, 0x1FBF0) then 0x1FBF0
    else -1
  }

  /** `unicodedata.decimal(c)`: the value of a decimal digit, below ten;
      the ASCII digits have their usual value. */
  function DecimalValue(c: char): (v: Option<nat>)
    ensures v.Some? ==> v.value < 10
    ensures '0' <= c <= '9' ==> v == Some(c as int - '0' as int)
  {
    var z := DecimalZero(c as int);
    if z < 0 then None else Some(c as int - z)
  }

  /** `c.isdecimal()`. */
  predicate IsDecimal(c: char) {
    DecimalValue(c).Some?
  }

  /** The characters that `str.isdigit` accepts on top of the decimal ones. */
  predicate IsOtherDigit(c: char) {
    var n := c as int;
    || (0xB2 <= n <= 0xB3)
    || (n == 0xB9)
    || (0x1369 <= n <= 0x1371)
    || (n == 0x19DA)
    || (n == 0x2070)
    || (0x2074 <= n <= 0x2079)
    || (0x2080 <= n <= 0x2089)
    || (0x2460 <= n <= 0x2468)
    || (0x2474 <= n <= 0x247C)
    || (0x2488 <= n <= 0x2490)
    || (n == 0x24EA)
    || (0x24F5 <= n <= 0x24FD)
    || (n == 0x24FF)
    || (0x2776 <= n <= 0x277E)
    || (0x2780 <= n <= 0x2788)
    || (0x278A <= n <= 0x2792)
    || (0x10A40 <= n <= 0x10A43)
    || (0x10E60 <= n <= 0x10E68)
    || (0x11052 <= n <= 0x1105A)
    || (0x1F100 <= n <= 0x1F10A)
  }

  /** `c.isdigit()`. */
  predicate IsDigitChar(c: char) {
    IsDecimal(c) || IsOtherDigit(c)
  }

  /** A decimal digit outside ASCII is never whitespace, and below code point
      127 only the ASCII digits are decimal. */
  lemma DecimalPlacement(c: char)
    ensures IsDecimal(c) ==> !IsSpace(c)
    ensures IsDecimal(c) && c as int < 127 ==> '0' <= c <= '9'
  {
    var z := DecimalZero(c as int);
    if z >= 0 {
      assert InRun(c as int, z) && ZeroPlacement(z);
    }
  }

  /** The digits only `str.isdigit` accepts have no decimal value, lie
      outside ASCII and are not whitespace. */
  lemma OtherDigitPlacement(c: char)
    requires IsOtherDigit(c)
    ensures !IsDecimal(c) && c as int >= 127 && !IsSpace(c)
  {
  }
}
