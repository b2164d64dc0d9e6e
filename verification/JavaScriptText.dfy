/** JavaScript's text: sequences of UTF-16 code units, and what its functions take for white space. */
module JavaScriptText {

  type CodeUnit = x: int | 0 <= x < 0x1_0000

  type Text = seq<CodeUnit>

  /** The code units of a text given by its characters: two for one outside the basic plane. */
  function Utf16(s: string): Text {
    if s == [] then [] else UnitsOf(s[0]) + Utf16(s[1..])
  }

  function UnitsOf(c: char): Text {
    var n := c as int;
    if n < 0x1_0000 then [n] else [0xD800 + (n - 0x1_0000) / 0x400, 0xDC00 + (n - 0x1_0000) % 0x400]
  }

  /** A character outside the basic plane is a high and a low surrogate, from which it can be read back. */
  lemma SurrogatesHoldIt(c: char)
    requires c as int >= 0x1_0000
    ensures var u := UnitsOf(c);
            && |u| == 2 && 0xD800 <= u[0] < 0xDC00 && 0xDC00 <= u[1] < 0xE000
            && 0x1_0000 + 0x400 * (u[0] as int - 0xD800) + (u[1] as int - 0xDC00) == c as int
  {
    var n := c as int - 0x1_0000;
    assert n == 0x400 * (n / 0x400) + n % 0x400;
  }

  /** White space and line ends: what `\s` matches and what `parseInt` skips. */
  predicate IsSpaceCode(n: int) {
    n == 0x09 || n == 0x0A || n == 0x0D || n == 0x20 || n == 0x0B || n == 0x0C || n == 0xA0
    || n == 0x1680 || 0x2000 <= n <= 0x200A || n == 0x2028 || n == 0x2029
    || n == 0x202F || n == 0x205F || n == 0x3000 || n == 0xFEFF
  }

  predicate IsSpace(c: char) { IsSpaceCode(c as int) }
}
