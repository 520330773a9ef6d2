/** IP addresses and their text. */
module Inet {
  import opened Text

  type byte = n: int | 0 <= n < 256

  datatype IPv4 = IPv4(a: byte, b: byte, c: byte, d: byte)

  /** A value of PostgreSQL's inet type; IPv6 addresses are kept as plain numbers. */
  datatype Inet = V4(ip: IPv4) | V6(bits: nat)

  function Octets(ip: IPv4): seq<string> {
    [Decimal(ip.a), Decimal(ip.b), Decimal(ip.c), Decimal(ip.d)]
  }

  /** net.IP.String on a four-byte address. */
  function DottedQuad(ip: IPv4): string {
    Joined(Octets(ip), '.')
  }

  lemma {:induction false} JoinedDigits(parts: seq<string>)
    requires forall i :: 0 <= i < |parts| ==> AllDigits(parts[i])
    ensures forall c :: c in Joined(parts, '.') ==> IsDigit(c) || c == '.'
  {
    if |parts| > 1 {
      JoinedDigits(parts[1..]);
    }
  }

  lemma DottedQuadInjective(x: IPv4, y: IPv4)
    requires DottedQuad(x) == DottedQuad(y)
    ensures x == y
  {
    JoinedInjective(Octets(x), Octets(y), '.');
    assert forall i :: 0 <= i < 4 ==> Octets(x)[i] == Octets(y)[i];
    DecimalInjective(x.a, y.a);
    DecimalInjective(x.b, y.b);
    DecimalInjective(x.c, y.c);
    DecimalInjective(x.d, y.d);
  }

  /** A net.IP: four or sixteen bytes, or anything else when it is malformed. */
  type NetIP = seq<byte>

  predicate Mapped(ip: NetIP) {
    |ip| == 16 && (forall i :: 0 <= i < 10 ==> ip[i] == 0) && ip[10] == 255 && ip[11] == 255
  }

  /** To4; nil is empty. */
  function To4(ip: NetIP): NetIP {
    if |ip| == 4 then ip else if Mapped(ip) then ip[12..] else []
  }

  function BytesOf(ip: IPv4): NetIP {
    [ip.a, ip.b, ip.c, ip.d]
  }
}
