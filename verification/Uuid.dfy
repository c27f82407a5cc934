/**
 * From the first sixteen bytes of a digest to a UUID text (stableUUID in
 * internal/engine/identity.go), with the variant and version fields of
 * RFC 9562, sections 4.1 and 4.2.
 */
module Uuid {

  type Byte = x: int | 0 <= x < 256

  type Raw = s: seq<Byte> | |s| == 16 witness seq(16, _ => 0)

  /** (b & 0x0f) | 0x50 */
  function VersionByte(b: Byte): Byte {
    b % 16 + 0x50
  }

  /** (b & 0x3f) | 0x80 */
  function VariantByte(b: Byte): Byte {
    b % 64 + 0x80
  }

  function Marked(raw: Raw): Raw {
    raw[6 := VersionByte(raw[6])][8 := VariantByte(raw[8])]
  }

  /** Hexadecimal digits are lower-case, as hex.EncodeToString writes them. */
  function HexDigit(n: int): char
    requires 0 <= n < 16
  {
    if n < 10 then '0' + n as char else 'a' + (n - 10) as char
  }

  function Hex(bytes: seq<Byte>): (text: string)
    ensures |text| == 2 * |bytes|
  {
    if bytes == [] then []
    else [HexDigit(bytes[0] / 16), HexDigit(bytes[0] % 16)] + Hex(bytes[1..])
  }

  function Grouped(encoded: string): string
    requires |encoded| == 32
  {
    encoded[0..8] + "-" + encoded[8..12] + "-" + encoded[12..16] + "-" + encoded[16..20] + "-" + encoded[20..32]
  }

  /** The bytes of the digest are edited in place, then written in five groups. */
  method StableUuid(hash: array<Byte>) returns (text: string)
    requires hash.Length == 20
    modifies hash
    ensures text == UuidText(old(hash[..16]))
  {
    ghost var before: Raw := hash[..16];
    hash[6] := VersionByte(hash[6]);
    hash[8] := VariantByte(hash[8]);
    assert hash[..16] == Marked(before);
    var encoded := Hex(hash[..16]);
    text := encoded[0..8] + "-" + encoded[8..12] + "-" + encoded[12..16] + "-" + encoded[16..20] + "-" + encoded[20..32];
  }

  function UuidText(raw: Raw): string {
    Grouped(Hex(Marked(raw)))
  }

  lemma {:induction false} HexAt(bytes: seq<Byte>, i: nat)
    requires i < |bytes|
    ensures Hex(bytes)[2 * i] == HexDigit(bytes[i] / 16)
    ensures Hex(bytes)[2 * i + 1] == HexDigit(bytes[i] % 16)
  {
    if i > 0 {
      HexAt(bytes[1..], i - 1);
    }
  }

  /** A well-formed version 5 UUID: five groups, version digit 5, variant bits 10. */
  lemma UuidShape(raw: Raw)
    ensures var text := UuidText(raw);
      && |text| == 36
      && text[8] == '-' && text[13] == '-' && text[18] == '-' && text[23] == '-'
      && text[14] == '5'
      && text[19] in {'8', '9', 'a', 'b'}
  {
    var marked := Marked(raw);
    HexAt(marked, 6);
    HexAt(marked, 8);
    var text, encoded := UuidText(raw), Hex(marked);
    assert text[14] == encoded[12] == HexDigit(5);
    assert text[19] == encoded[16];
    assert 8 <= marked[8] / 16 < 12;
  }

  /** The value of a hexadecimal digit, and -1 for any other character. */
  function HexValue(c: char): int {
    if '0' <= c <= '9' then c as int - '0' as int else if 'a' <= c <= 'f' then c as int - 'a' as int + 10 else -1
  }

  /** Where the two digits of a byte stand, after the dashes before it. */
  function Place(i: nat): nat {
    2 * i + if i < 4 then 0 else if i < 6 then 1 else if i < 8 then 2 else if i < 10 then 3 else 4
  }

  /** Every byte of the digest can be read back from the text, except the six overwritten bits. */
  lemma UuidReads(raw: Raw, i: nat)
    requires i < 16
    ensures |UuidText(raw)| == 36 && Place(i) + 1 < 36
    ensures HexValue(UuidText(raw)[Place(i)]) >= 0 && HexValue(UuidText(raw)[Place(i) + 1]) >= 0
    ensures 16 * HexValue(UuidText(raw)[Place(i)]) + HexValue(UuidText(raw)[Place(i) + 1]) ==
      if i == 6 then 0x50 + raw[6] % 0x10 else if i == 8 then 0x80 + raw[8] % 0x40 else raw[i]
  {
    hide Hex;
    HexAt(Marked(raw), i);
    var encoded, b := Hex(Marked(raw)), Marked(raw)[i];
    assert UuidText(raw)[Place(i)] == encoded[2 * i] && UuidText(raw)[Place(i) + 1] == encoded[2 * i + 1];
    assert b == 16 * (b / 16) + b % 16;
  }

  lemma HexDigitInjective(a: int, b: int)
    requires 0 <= a < 16 && 0 <= b < 16 && HexDigit(a) == HexDigit(b)
    ensures a == b
  {
  }

  lemma HexInjective(a: seq<Byte>, b: seq<Byte>)
    requires |a| == |b| && Hex(a) == Hex(b)
    ensures a == b
  {
    forall i | 0 <= i < |a|
      ensures a[i] == b[i]
    {
      HexAt(a, i);
      HexAt(b, i);
      HexDigitInjective(a[i] / 16, b[i] / 16);
      HexDigitInjective(a[i] % 16, b[i] % 16);
      assert a[i] == 16 * (a[i] / 16) + a[i] % 16;
      assert b[i] == 16 * (b[i] / 16) + b[i] % 16;
    }
  }

  /** The 122 bits of the digest that survive. */
  predicate SameFreeBits(a: Raw, b: Raw) {
    && (forall i :: 0 <= i < 16 && i != 6 && i != 8 ==> a[i] == b[i])
    && a[6] % 16 == b[6] % 16 && a[8] % 64 == b[8] % 64
  }

  /** Two digests give one UUID exactly when they agree outside the six overwritten bits. */
  lemma UuidDistinguishesExactly(a: Raw, b: Raw)
    ensures UuidText(a) == UuidText(b) <==> SameFreeBits(a, b)
  {
    var ma, mb := Marked(a), Marked(b);
    hide Hex, Grouped;
    if UuidText(a) == UuidText(b) {
      GroupsDetermine(Hex(ma), Hex(mb));
      HexInjective(ma, mb);
      forall i | 0 <= i < 16 && i != 6 && i != 8
        ensures a[i] == b[i]
      {
        assert ma[i] == a[i] && mb[i] == b[i];
      }
      assert ma[6] == VersionByte(a[6]) && mb[6] == VersionByte(b[6]);
      assert ma[8] == VariantByte(a[8]) && mb[8] == VariantByte(b[8]);
    }
    if SameFreeBits(a, b) {
      assert ma == mb;
    }
  }

  lemma GroupsDetermine(a: string, b: string)
    requires |a| == 32 && |b| == 32 && Grouped(a) == Grouped(b)
    ensures a == b
  {
    forall i | 0 <= i < 32
      ensures a[i] == b[i]
    {
      var j := if i < 8 then i else if i < 12 then i + 1 else if i < 16 then i + 2 else if i < 20 then i + 3 else i + 4;
      assert Grouped(a)[j] == a[i] && Grouped(b)[j] == b[i];
    }
  }
}
