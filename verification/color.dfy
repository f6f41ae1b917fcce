/** `getRandomColor` (index.js:55-62): `#` followed by six hexadecimal
    digits, each picked by `Math.floor(Math.random() * 16)`. The six draws
    are supplied by the caller. */
module Color {

  const HexDigits: string := "0123456789ABCDEF"

  /** One draw of `Math.floor(Math.random() * 16)`. */
  type Nibble = x: int | 0 <= x < 16

  /** The colour the six draws select, stated without the loop. */
  function ColorOf(draws: seq<Nibble>): string
    requires |draws| == 6
  {
    "#" + seq(6, i requires 0 <= i < 6 => HexDigits[draws[i]])
  }

  /** The loop of index.js:57-61. */
  method RandomColor(draws: seq<Nibble>) returns (color: string)
    requires |draws| == 6
    ensures |color| == 7 && color[0] == '#'
    ensures forall i :: 1 <= i < 7 ==> color[i] in HexDigits
    ensures forall i :: 0 <= i < 6 ==> color[i + 1] == HexDigits[draws[i]]
    ensures color == ColorOf(draws)
  {
    color := "#";
    var i := 0;
    while i < 6
      invariant 0 <= i <= 6
      invariant |color| == i + 1 && color[0] == '#'
      invariant forall j :: 0 <= j < i ==> color[j + 1] == HexDigits[draws[j]]
    {
      color := color + [HexDigits[draws[i]]];
      i := i + 1;
    }
    forall k | 1 <= k < 7
      ensures color[k] in HexDigits
    {
      assert color[k] == HexDigits[draws[k - 1]];
    }
  }

  /** The value of a hexadecimal digit. */
  function DigitValue(c: char): (n: Nibble)
    requires c in HexDigits
    ensures HexDigits[n] == c
  {
    if c == HexDigits[0] then 0
    else if c == HexDigits[1] then 1
    else if c == HexDigits[2] then 2
    else if c == HexDigits[3] then 3
    else if c == HexDigits[4] then 4
    else if c == HexDigits[5] then 5
    else if c == HexDigits[6] then 6
    else if c == HexDigits[7] then 7
    else if c == HexDigits[8] then 8
    else if c == HexDigits[9] then 9
    else if c == HexDigits[10] then 10
    else if c == HexDigits[11] then 11
    else if c == HexDigits[12] then 12
    else if c == HexDigits[13] then 13
    else if c == HexDigits[14] then 14
    else 15
  }

  /** `#RRGGBB` in upper-case hexadecimal. */
  predicate IsHexColor(s: string) {
    |s| == 7 && s[0] == '#' && forall i :: 1 <= i < 7 ==> s[i] in HexDigits
  }

  /** Reads the six draws back out of a colour. */
  function DrawsOf(s: string): (draws: seq<Nibble>)
    requires IsHexColor(s)
    ensures |draws| == 6
  {
    seq(6, i requires 0 <= i < 6 => DigitValue(s[i + 1]))
  }

  lemma HexDigitsDistinct()
    ensures forall i, j :: 0 <= i < j < 16 ==> HexDigits[i] != HexDigits[j]
  {
  }

  /** Different draws give different colours: the draws can be read back. */
  lemma ColorRoundTrip(draws: seq<Nibble>)
    requires |draws| == 6
    ensures IsHexColor(ColorOf(draws))
    ensures DrawsOf(ColorOf(draws)) == draws
  {
    var c := ColorOf(draws);
    HexDigitsDistinct();
    forall i | 0 <= i < 6
      ensures DigitValue(c[i + 1]) == draws[i]
    {
      var n := DigitValue(c[i + 1]);
      assert HexDigits[n] == HexDigits[draws[i]];
    }
  }

  /** Every upper-case `#RRGGBB` colour is produced by some draws. */
  lemma EveryColorReachable(s: string)
    requires IsHexColor(s)
    ensures ColorOf(DrawsOf(s)) == s
  {
  }
}
