/** Classes of characters. */
module Characters {

  predicate Digit(c: char) {
    '0' <= c <= '9'
  }

  /** What Python takes for white space: str.isspace, and \s in a pattern. */
  predicate Space(c: char) {
    var n := c as int;
    || 9 <= n <= 13 || 28 <= n <= 32 || n == 0x85 || n == 0xa0 || n == 0x1680 || 0x2000 <= n <= 0x200a
    || n == 0x2028 || n == 0x2029 || n == 0x202f || n == 0x205f || n == 0x3000
  }

  function LStrip(t: string): (r: string)
    ensures |r| <= |t|
    ensures r != [] ==> !Space(r[0])
  {
    if t != [] && Space(t[0]) then LStrip(t[1..]) else t
  }

  function RStrip(t: string): (r: string)
    ensures r <= t
    ensures r != [] ==> !Space(r[|r| - 1])
  {
    if t != [] && Space(t[|t| - 1]) then RStrip(t[..|t| - 1]) else t
  }

  function Strip(t: string): string {
    RStrip(LStrip(t))
  }
}
