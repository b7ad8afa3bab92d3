/** UUIDs: 128-bit numbers and their text. */
module Ids {
  import opened Text

  const HEX := "0123456789abcdef"

  function HexValue(c: char): (r: Option<nat>)
    ensures r.Some? ==> r.value < 16
  {
    if '0' <= c <= '9' then Some(c as int - '0' as int)
    else if 'a' <= c <= 'f' then Some(c as int - 'a' as int + 10)
    else if 'A' <= c <= 'F' then Some(c as int - 'A' as int + 10)
    else None
  }

  lemma DigitReads(d: nat)
    requires d < 16
    ensures HexValue(HEX[d]) == Some(d)
  {
  }

  const NIL: nat := 0
  const UUIDS: nat := 0x1_0000_0000_0000_0000_0000_0000_0000_0000

  /** `width` hexadecimal digits, most significant first. */
  function Hex(n: nat, width: nat): (r: string)
    ensures |r| == width
  {
    if width == 0 then "" else Hex(n / 16, width - 1) + [HEX[n % 16]]
  }

  function HexNumber(s: string): (r: Option<nat>)
    ensures r.Some? ==> r.value < Power16(|s|)
  {
    if s == "" then Some(0)
    else
      match (HexNumber(s[..|s| - 1]), HexValue(s[|s| - 1]))
      case (Some(high), Some(low)) => Some(16 * high + low)
      case _ => None
  }

  function Power16(k: nat): nat { if k == 0 then 1 else 16 * Power16(k - 1) }

  lemma {:induction false} HexNumberReads(n: nat, width: nat)
    requires n < Power16(width)
    ensures HexNumber(Hex(n, width)) == Some(n)
  {
    if width > 0 {
      HexNumberReads(n / 16, width - 1);
      DigitReads(n % 16);
      assert Hex(n, width)[..width - 1] == Hex(n / 16, width - 1);
    }
  }

  /** The 8-4-4-4-12 layout. */
  function Grouped(h: string): (r: string)
    requires |h| == 32
    ensures |r| == 36
  {
    h[..8] + "-" + h[8..12] + "-" + h[12..16] + "-" + h[16..20] + "-" + h[20..]
  }

  /** The text of a UUID. */
  function UuidText(u: nat): (r: string)
    ensures |r| == 36
  {
    Grouped(Hex(u, 32))
  }

  lemma Power16Of32()
    ensures Power16(32) == UUIDS
  {
    assert Power16(8) == 0x1_0000_0000;
    assert Power16(16) == 0x1_0000_0000_0000_0000;
    assert Power16(24) == 0x1_0000_0000_0000_0000_0000_0000;
  }

  /** Reading that text; hexadecimal digits of either case, as section 4 of RFC 9562 has it. */
  function ReadUuid(s: string): (r: Option<nat>)
    ensures r.Some? ==> r.value < UUIDS
  {
    Power16Of32();
    if |s| == 36 && s[8] == s[13] == s[18] == s[23] == '-' then
      HexNumber(s[..8] + s[9..13] + s[14..18] + s[19..23] + s[24..])
    else None
  }

  lemma {:induction false} GroupedReads(h: string)
    requires |h| == 32
    ensures ReadUuid(Grouped(h)) == HexNumber(h)
  {
    hide HexNumber;
    var s := Grouped(h);
    assert s[..8] == h[..8] && s[9..13] == h[8..12] && s[14..18] == h[12..16];
    assert s[19..23] == h[16..20] && s[24..] == h[20..];
    assert h[..8] + h[8..12] + h[12..16] + h[16..20] + h[20..] == h;
  }

  lemma {:induction false} UuidTextReads(u: nat)
    requires u < UUIDS
    ensures ReadUuid(UuidText(u)) == Some(u)
  {
    GroupedReads(Hex(u, 32));
    Power16Of32();
    HexNumberReads(u, 32);
  }

  /** The last digit of the layout is the last digit. */
  lemma GroupedEnds(h: string)
    requires |h| == 32
    ensures Grouped(h)[35] == h[31]
  {
  }
}
