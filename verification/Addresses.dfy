/** IPv4 addresses and networks (ipaddress.IPv4Address, IPv4Network) with their strict text form. */
module Addresses {
  import opened Basics
  import opened Numbers
  import opened Text

  type Addr = a: int | 0 <= a < 0x1_0000_0000

  /** base/len; base has no host bits set. */
  datatype Prefix = Prefix(base: Addr, len: PrefixLength)

  type PrefixLength = n: nat | n <= 32

  function Octet(a: Addr, i: nat): (o: nat)
    requires i < 4
    ensures o < 256
  {
    match i
    case 0 => a / 0x100_0000
    case 1 => a / 0x1_0000 % 256
    case 2 => a / 0x100 % 256
    case 3 => a % 256
  }

  function FromOctets(a: nat, b: nat, c: nat, d: nat): Addr
    requires a < 256 && b < 256 && c < 256 && d < 256
  {
    a * 0x100_0000 + b * 0x1_0000 + c * 0x100 + d
  }

  lemma OctetsRoundTrip(a: Addr)
    ensures FromOctets(Octet(a, 0), Octet(a, 1), Octet(a, 2), Octet(a, 3)) == a
  {
  }

  lemma OctetsOf(a: nat, b: nat, c: nat, d: nat)
    requires a < 256 && b < 256 && c < 256 && d < 256
    ensures Octet(FromOctets(a, b, c, d), 0) == a
    ensures Octet(FromOctets(a, b, c, d), 1) == b
    ensures Octet(FromOctets(a, b, c, d), 2) == c
    ensures Octet(FromOctets(a, b, c, d), 3) == d
  {
    var high := a * 256 + b;
    var upper := high * 256 + c;
    assert FromOctets(a, b, c, d) == upper * 256 + d;
    assert (upper * 256 + d) / 0x100 == upper && (upper * 256 + d) / 0x1_0000 == high;
  }

  function OctetTexts(a: Addr): (r: seq<string>)
    ensures |r| == 4
  {
    [Decimal(Octet(a, 0)), Decimal(Octet(a, 1)), Decimal(Octet(a, 2)), Decimal(Octet(a, 3))]
  }

  /** str(IPv4Address): dotted decimal. */
  function AddrText(a: Addr): string { Join(OctetTexts(a), '.') }

  /** One octet, as ipaddress accepts it: one to three digits, no leading zero, at most 255. */
  function ParseOctet(s: string): Option<nat> {
    if s == [] || |s| > 3 || (|s| > 1 && s[0] == '0') then None
    else
      var v := Read(s, 10);
      if v.None? || v.value > 255 then None else v
  }

  /** IPv4Address(text). */
  function ParseAddr(s: string): Option<Addr> {
    var parts := Split(s, '.');
    if |parts| != 4 then None
    else
      var a, b, c, d := ParseOctet(parts[0]), ParseOctet(parts[1]), ParseOctet(parts[2]), ParseOctet(parts[3]);
      if a.None? || b.None? || c.None? || d.None? then None
      else Some(FromOctets(a.value, b.value, c.value, d.value))
  }

  lemma OctetText(n: nat)
    requires n < 256
    ensures ParseOctet(Decimal(n)) == Some(n)
    ensures '.' !in Decimal(n) && Decimal(n) != []
  {
    ReadPrint(n, 10);
    PrintShape(n, 10);
    DecimalLength(n);
    DecimalDigits(n);
  }

  lemma TextOctet(s: string)
    requires ParseOctet(s).Some?
    ensures s == Decimal(ParseOctet(s).value)
  {
    PrintRead(s, 10);
  }

  lemma AddrTextParses(a: Addr)
    ensures ParseAddr(AddrText(a)) == Some(a)
    ensures Split(AddrText(a), '.') == OctetTexts(a)
  {
    var parts := OctetTexts(a);
    OctetText(Octet(a, 0));
    OctetText(Octet(a, 1));
    OctetText(Octet(a, 2));
    OctetText(Octet(a, 3));
    forall p | p in parts
      ensures '.' !in p
    {
    }
    SplitJoin(parts, '.');
    OctetsRoundTrip(a);
  }

  /** The text form is the only text that denotes the address, so equal text means equal address. */
  lemma ParseAddrExactly(s: string, a: Addr)
    ensures ParseAddr(s) == Some(a) <==> s == AddrText(a)
  {
    AddrTextParses(a);
    if ParseAddr(s) == Some(a) {
      var parts := Split(s, '.');
      TextOctet(parts[0]);
      TextOctet(parts[1]);
      TextOctet(parts[2]);
      TextOctet(parts[3]);
      OctetsOf(ParseOctet(parts[0]).value, ParseOctet(parts[1]).value,
               ParseOctet(parts[2]).value, ParseOctet(parts[3]).value);
      assert parts == OctetTexts(a);
      JoinSplit(s, '.');
    }
  }

  predicate AddrChar(c: char) { c == '.' || '0' <= c <= '9' }

  lemma AddrTextChars(a: Addr)
    ensures forall c :: c in AddrText(a) ==> AddrChar(c)
    ensures '.' in AddrText(a)
  {
    var t := OctetTexts(a);
    DecimalDigits(Octet(a, 0));
    DecimalDigits(Octet(a, 1));
    DecimalDigits(Octet(a, 2));
    DecimalDigits(Octet(a, 3));
    assert t[..3][..2][..1] == [t[0]] && t[..3][..2] == [t[0], t[1]];
    assert Join(t[..3][..2], '.') == t[0] + ['.'] + t[1];
    assert Join(t[..3], '.') == t[0] + ['.'] + t[1] + ['.'] + t[2];
    assert AddrText(a) == t[0] + ['.'] + t[1] + ['.'] + t[2] + ['.'] + t[3];
  }

  // ---- networks

  function Size(len: PrefixLength): (s: nat)
    ensures s >= 1
    decreases 32 - len
  {
    if len == 32 then 1 else 2 * Size(len + 1)
  }

  lemma NetworkSizes()
    ensures Size(32) == 1 && Size(24) == 256 && Size(21) == 2048 && Size(16) == 65536
  {
    assert Size(29) == 8;
    assert Size(26) == 64;
    assert Size(23) == 512;
    assert Size(21) == 2048;
    assert Size(18) == 16384;
  }

  /** address in network. */
  predicate InPrefix(a: int, p: Prefix) {
    p.base <= a < p.base + Size(p.len)
  }

  function Broadcast(p: Prefix): int {
    p.base + Size(p.len) - 1
  }

  ghost predicate Apart(p: Prefix, q: Prefix) {
    forall a: int :: !(InPrefix(a, p) && InPrefix(a, q))
  }

  ghost predicate Inside(p: Prefix, q: Prefix) {
    forall a: int :: InPrefix(a, p) ==> InPrefix(a, q)
  }
}
