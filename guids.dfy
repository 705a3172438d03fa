/** Globally unique identifiers: a 128-bit value, its "N" (32 hex digits) and
    "D" (8-4-4-4-12) text forms, and Guid.NewGuid as an injected source. */
module Guids {
  import opened Common

  const GuidBound: nat := 0x1_0000_0000_0000_0000_0000_0000_0000_0000

  type Guid = g: nat | g < GuidBound

  /** Guid.Empty. */
  const EmptyGuid: Guid := 0

  function Pow16(k: nat): (p: nat)
    ensures p >= 1
  {
    if k == 0 then 1 else 16 * Pow16(k - 1)
  }

  predicate IsHexChar(c: char) {
    ('0' <= c <= '9') || ('a' <= c <= 'f')
  }

  predicate IsHexString(s: string) {
    forall i :: 0 <= i < |s| ==> IsHexChar(s[i])
  }

  function HexChar(d: nat): (c: char)
    requires d < 16
    ensures IsHexChar(c)
  {
    "0123456789abcdef"[d]
  }

  function HexCharValue(c: char): (d: nat)
    requires IsHexChar(c)
    ensures d < 16
  {
    if c <= '9' then c as int - '0' as int else c as int - 'a' as int + 10
  }

  lemma HexCharRoundTrip(d: nat)
    requires d < 16
    ensures HexCharValue(HexChar(d)) == d
  {
  }

  /** The lowest `width` hexadecimal digits of n, most significant first, in lower case. */
  function Hex(n: nat, width: nat): (s: string)
    ensures |s| == width && IsHexString(s)
  {
    if width == 0 then "" else Hex(n / 16, width - 1) + [HexChar(n % 16)]
  }

  function HexValue(s: string): nat
    requires IsHexString(s)
  {
    if s == [] then 0 else HexValue(s[..|s| - 1]) * 16 + HexCharValue(s[|s| - 1])
  }

  lemma {:induction false} HexRoundTrip(n: nat, width: nat)
    requires n < Pow16(width)
    ensures HexValue(Hex(n, width)) == n
  {
    if width > 0 {
      var s := Hex(n, width);
      assert s[..|s| - 1] == Hex(n / 16, width - 1);
      assert n / 16 < Pow16(width - 1);
      HexRoundTrip(n / 16, width - 1);
      HexCharRoundTrip(n % 16);
    }
  }

  lemma {:induction false} HexValueBound(s: string)
    requires IsHexString(s)
    ensures HexValue(s) < Pow16(|s|)
  {
    if s != [] {
      HexValueBound(s[..|s| - 1]);
    }
  }

  lemma GuidBoundIsPow16()
    ensures Pow16(32) == GuidBound
  {
    assert Pow16(1) == 0x10;
    assert Pow16(2) == 0x100;
    assert Pow16(3) == 0x1000;
    assert Pow16(4) == 0x10000;
    assert Pow16(5) == 0x100000;
    assert Pow16(6) == 0x1000000;
    assert Pow16(7) == 0x10000000;
    assert Pow16(8) == 0x100000000;
    assert Pow16(9) == 0x1000000000;
    assert Pow16(10) == 0x10000000000;
    assert Pow16(11) == 0x100000000000;
    assert Pow16(12) == 0x1000000000000;
    assert Pow16(13) == 0x10000000000000;
    assert Pow16(14) == 0x100000000000000;
    assert Pow16(15) == 0x1000000000000000;
    assert Pow16(16) == 0x10000000000000000;
    assert Pow16(17) == 0x100000000000000000;
    assert Pow16(18) == 0x1000000000000000000;
    assert Pow16(19) == 0x10000000000000000000;
    assert Pow16(20) == 0x100000000000000000000;
    assert Pow16(21) == 0x1000000000000000000000;
    assert Pow16(22) == 0x10000000000000000000000;
    assert Pow16(23) == 0x100000000000000000000000;
    assert Pow16(24) == 0x1000000000000000000000000;
    assert Pow16(25) == 0x10000000000000000000000000;
    assert Pow16(26) == 0x100000000000000000000000000;
    assert Pow16(27) == 0x1000000000000000000000000000;
    assert Pow16(28) == 0x10000000000000000000000000000;
    assert Pow16(29) == 0x100000000000000000000000000000;
    assert Pow16(30) == 0x1000000000000000000000000000000;
    assert Pow16(31) == 0x10000000000000000000000000000000;
    assert Pow16(32) == 0x100000000000000000000000000000000;
  }

  /** Guid.ToString("N"). */
  function FormatN(g: Guid): (s: string)
    ensures |s| == 32 && IsHexString(s)
  {
    Hex(g, 32)
  }

  /** Distinct identifiers have distinct "N" texts. */
  lemma FormatNInjective(g1: Guid, g2: Guid)
    ensures FormatN(g1) == FormatN(g2) ==> g1 == g2
  {
    GuidBoundIsPow16();
    HexRoundTrip(g1, 32);
    HexRoundTrip(g2, 32);
  }

  /** Guid.ToString("D"), the form System.Text.Json writes. */
  function FormatD(g: Guid): (s: string)
    ensures |s| == 36
  {
    var h := FormatN(g);
    h[..8] + "-" + h[8..12] + "-" + h[12..16] + "-" + h[16..20] + "-" + h[20..]
  }

  /** Reads the "D" form back; None for anything else. */
  function ParseD(s: string): (r: Option<Guid>)
  {
    if |s| != 36 || s[8] != '-' || s[13] != '-' || s[18] != '-' || s[23] != '-' then None
    else
      var h := s[..8] + s[9..13] + s[14..18] + s[19..23] + s[24..];
      if !IsHexString(h) then None
      else
        HexValueBound(h);
        GuidBoundIsPow16();
        Some(HexValue(h))
  }

  lemma ParseFormatD(g: Guid)
    ensures ParseD(FormatD(g)) == Some(g)
  {
    var h := FormatN(g);
    var s := FormatD(g);
    assert s[..8] == h[..8] && s[9..13] == h[8..12] && s[14..18] == h[12..16];
    assert s[19..23] == h[16..20] && s[24..] == h[20..];
    assert h[..8] + h[8..12] + h[12..16] + h[16..20] + h[20..] == h;
    assert s[8] == '-' && s[13] == '-' && s[18] == '-' && s[23] == '-';
    GuidBoundIsPow16();
    HexRoundTrip(g as nat, 32);
    assert HexValue(h) == g as nat;
  }

  /** Guid.NewGuid as an oracle: the identifiers it will hand out, in order,
      and how many it has handed out so far. */
  class GuidSource {
    const values: nat -> Guid
    var issued: nat

    constructor (values: nat -> Guid)
      ensures this.values == values && issued == 0
    {
      this.values := values;
      issued := 0;
    }

    method NewGuid() returns (g: Guid)
      modifies this
      ensures g == values(old(issued)) && issued == old(issued) + 1
    {
      g := values(issued);
      issued := issued + 1;
    }
  }

  /** An oracle that never repeats an identifier and never hands out Guid.Empty,
      the behaviour expected of Guid.NewGuid. */
  ghost predicate Unique(values: nat -> Guid) {
    (forall i, j :: i != j ==> values(i) != values(j)) && (forall i :: values(i) != EmptyGuid)
  }
}
