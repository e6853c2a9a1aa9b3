/**
 * Sector coordinates and their keys: Engine.getSector (dots.js:456-461) and
 * Engine.getSectorKey (dots.js:469-471).
 */
module SectorKeys {
  import opened Wrappers
  import JsMath

  /** A sector position `{ x, y }`: a cell of the grid laid over the canvas. */
  datatype Cell = Cell(x: int, y: int)

  /**
   * Engine.getSector: the cell that holds the point, found by flooring each
   * coordinate divided by the sector size.
   */
  function GetSector(px: real, py: real, size: real): Cell
    requires size != 0.0
  {
    Cell((px / size).Floor, (py / size).Floor)
  }

  /** For a positive size, the cell getSector picks is the square of the grid that holds the point. */
  lemma GetSectorContains(px: real, py: real, size: real)
    requires 0.0 < size
    ensures var c := GetSector(px, py, size);
      && c.x as real * size <= px < (c.x + 1) as real * size
      && c.y as real * size <= py < (c.y + 1) as real * size
  {
    FloorScaled(px, size);
    FloorScaled(py, size);
  }

  /** Flooring `p / size` picks the multiple of `size` just at or below `p`. */
  lemma FloorScaled(p: real, size: real)
    requires size != 0.0
    ensures 0.0 < size ==> (p / size).Floor as real * size <= p < ((p / size).Floor + 1) as real * size
  {
    if 0.0 < size {
      var f := (p / size).Floor as real;
      JsMath.QuotientBetween(p, size, f, f + 1.0);
    }
  }

  /** The decimal digit `d` as a character. */
  function DigitChar(d: nat): (ch: char)
    requires d < 10
    ensures '0' <= ch <= '9' && (ch as int - '0' as int) == d
  {
    (d + '0' as int) as char
  }

  /** True of strings made only of decimal digits. */
  predicate AllDigits(s: string) {
    forall i :: 0 <= i < |s| ==> '0' <= s[i] <= '9'
  }

  /** JavaScript's rendering of a non-negative integer: its decimal digits, without leading zeros. */
  function NatString(n: nat): (s: string)
    ensures |s| >= 1 && AllDigits(s)
    decreases n
  {
    if n < 10 then [DigitChar(n)] else NatString(n / 10) + [DigitChar(n % 10)]
  }

  /** JavaScript's rendering of an integer: a minus sign before the digits of a negative one. */
  function IntString(n: int): (s: string)
    ensures |s| >= 1 && '_' !in s
  {
    if n < 0 then "-" + NatString(-n) else NatString(n)
  }

  /** Engine.getSectorKey: the property name `"x_y"` of a cell in the sector table. */
  function SectorKey(c: Cell): string {
    IntString(c.x) + "_" + IntString(c.y)
  }

  /** The value of a string of decimal digits. */
  function ParseNat(s: string): nat
    requires AllDigits(s)
  {
    if s == [] then 0 else ParseNat(s[..|s| - 1]) * 10 + (s[|s| - 1] as int - '0' as int)
  }

  /** The value of a decimal integer, with an optional leading minus sign. */
  function ParseInt(s: string): int {
    if |s| > 0 && s[0] == '-' && AllDigits(s[1..]) then -(ParseNat(s[1..]) as int)
    else if AllDigits(s) then ParseNat(s)
    else 0
  }

  /** The position of the first `_` in `s`, or `|s|` if there is none. */
  function Underscore(s: string): (i: nat)
    ensures i <= |s|
    ensures i < |s| ==> s[i] == '_'
    ensures forall j :: 0 <= j < i ==> s[j] != '_'
  {
    if s == [] then 0 else if s[0] == '_' then 0 else 1 + Underscore(s[1..])
  }

  /** Reads a sector key back: the integers before and after the first `_`. */
  function ParseSectorKey(k: string): Option<Cell> {
    var i := Underscore(k);
    if i == |k| then None else Some(Cell(ParseInt(k[..i]), ParseInt(k[i + 1..])))
  }

  /** Reading the digits of `n` gives back `n`. */
  lemma {:induction false} ParseNatString(n: nat)
    ensures ParseNat(NatString(n)) == n
    decreases n
  {
    if n >= 10 {
      var s := NatString(n);
      ParseNatString(n / 10);
      assert s[..|s| - 1] == NatString(n / 10);
    }
  }

  /** Reading the rendering of `n` gives back `n`. */
  lemma ParseIntString(n: int)
    ensures ParseInt(IntString(n)) == n
  {
    var s := IntString(n);
    if n < 0 {
      assert s[0] == '-' && s[1..] == NatString(-n);
      ParseNatString(-n);
    } else {
      assert s == NatString(n) && '0' <= s[0] <= '9';
      ParseNatString(n);
    }
  }

  /** Every sector key reads back as the cell it was made from. */
  lemma SectorKeyRoundTrip(c: Cell)
    ensures ParseSectorKey(SectorKey(c)) == Some(c)
  {
    var sx := IntString(c.x);
    var k := SectorKey(c);
    UnderscoreAfter(sx, IntString(c.y));
    assert Underscore(k) == |sx|;
    assert k[..|sx|] == sx;
    assert k[|sx| + 1..] == IntString(c.y);
    ParseIntString(c.x);
    ParseIntString(c.y);
  }

  /** The first `_` of `a + "_" + b` is the one right after `a` when `a` has none. */
  lemma {:induction false} UnderscoreAfter(a: string, b: string)
    requires '_' !in a
    ensures Underscore(a + "_" + b) == |a|
    decreases |a|
  {
    if a != [] {
      assert (a + "_" + b)[1..] == a[1..] + "_" + b;
      UnderscoreAfter(a[1..], b);
    }
  }

  /**
   * Distinct cells have distinct keys, so a table keyed by the cell itself
   * behaves exactly like the source's table keyed by the string.
   */
  lemma SectorKeyInjective(c: Cell, d: Cell)
    ensures SectorKey(c) == SectorKey(d) <==> c == d
  {
    if SectorKey(c) == SectorKey(d) {
      SectorKeyRoundTrip(c);
      SectorKeyRoundTrip(d);
    }
  }
}
