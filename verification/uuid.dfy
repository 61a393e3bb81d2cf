/** The text of a UUID, and the number it stands for. */
module Uuid {
  import opened Cursor

  const SIZE := 0x1_0000_0000_0000_0000_0000_0000_0000_0000

  function HexChar(d: nat): (c: char)
    requires d < 16
    ensures IsHex(c) && HexValue(c) == d
  {
    if d < 10 then '0' + d as char else 'a' + (d - 10) as char
  }

  function HexValue(c: char): (d: nat)
    requires IsHex(c)
    ensures d < 16
  {
    if '0' <= c <= '9' then (c - '0') as nat
    else if 'a' <= c <= 'f' then (c - 'a') as nat + 10 else (c - 'A') as nat + 10
  }

  predicate AllHex(s: string) {
    forall i :: 0 <= i < |s| ==> IsHex(s[i])
  }

  function Pow16(w: nat): (p: nat)
    ensures p > 0
  {
    if w == 0 then 1 else 16 * Pow16(w - 1)
  }

  /** The lowest `w` hex digits. */
  function HexDigits(n: nat, w: nat): (s: string)
    ensures |s| == w && AllHex(s)
  {
    if w == 0 then "" else HexDigits(n / 16, w - 1) + [HexChar(n % 16)]
  }

  function HexNumber(s: string): nat
    requires AllHex(s)
  {
    if s == "" then 0 else 16 * HexNumber(s[..|s| - 1]) + HexValue(s[|s| - 1])
  }

  lemma {:induction false} HexNumberOfDigits(n: nat, w: nat)
    requires n < Pow16(w)
    ensures HexNumber(HexDigits(n, w)) == n
  {
    if w > 0 {
      HexNumberOfDigits(n / 16, w - 1);
      assert HexDigits(n, w)[..w - 1] == HexDigits(n / 16, w - 1);
    }
  }

  /** 8-4-4-4-12 lower-case hex digits, as the uuid type of the database is printed. */
  function Text(n: nat): (s: string)
    ensures |s| == 36
  {
    var h := HexDigits(n, 32);
    h[..8] + "-" + h[8..12] + "-" + h[12..16] + "-" + h[16..20] + "-" + h[20..]
  }

  function WithoutHyphens(s: string): string
    requires |s| == 36
  {
    s[..8] + s[9..13] + s[14..18] + s[19..23] + s[24..]
  }

  /** The number of a hyphenated text. */
  function Number(s: string): nat {
    if |s| == 36 && AllHex(WithoutHyphens(s)) then HexNumber(WithoutHyphens(s)) else 0
  }

  lemma TextIsUuid(n: nat)
    ensures IsUuid(Text(n)) && Bytes(Text(n))
  {
    var h, s := HexDigits(n, 32), Text(n);
    assert s[8] == '-' && s[13] == '-' && s[18] == '-' && s[23] == '-';
    forall i | 0 <= i < 36 && i !in {8, 13, 18, 23}
      ensures IsHex(s[i])
    {
      var j := if i < 8 then i else if i < 13 then i - 1 else if i < 18 then i - 2 else if i < 23 then i - 3 else i - 4;
      assert s[i] == h[j];
    }
    assert IsHyphenated(s);
  }

  lemma SizeIsPow()
    ensures Pow16(32) == SIZE
  {
    assert Pow16(8) == 0x1_0000_0000;
    PowAdds(8, 8);
    PowAdds(16, 16);
  }

  lemma {:induction false} PowAdds(a: nat, b: nat)
    ensures Pow16(a + b) == Pow16(a) * Pow16(b)
  {
    if b > 0 {
      PowAdds(a, b - 1);
    }
  }

  /** Printing and reading a 128-bit id loses nothing. */
  lemma NumberOfText(n: nat)
    requires n < SIZE
    ensures Number(Text(n)) == n
  {
    var h := HexDigits(n, 32);
    SizeIsPow();
    HexNumberOfDigits(n, 32);
    assert WithoutHyphens(Text(n)) == h;
  }

  /** A cursor made from any time of the years 0 to 9999 and any 128-bit id is accepted, and gives back
      the time to the microsecond and the very id. */
  lemma CursorsOfIdsAreAccepted(t: Civil, n: nat)
    requires ValidCivil(t) && n < SIZE
    ensures Bytes(Text(n))
    ensures var d := Decode(Encode(t, Text(n))); d.Decoded? && d.t == Truncate(t) && d.id == Text(n) && Number(d.id) == n
  {
    TextIsUuid(n);
    NumberOfText(n);
    RoundTrip(t, Text(n));
  }
}
