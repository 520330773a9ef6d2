/** The private address blocks of probe/netlink/netutil/netutil.go. The IPv4 blocks are those of
    section 3 of RFC 1918. */
module PrivateIP {
  import opened Inet

  /** A net.IPNet: base and mask, byte by byte. */
  datatype Block = Block(base: seq<bv8>, mask: seq<bv8>)

  const BLOCKS: seq<Block> := [
    Block([10, 0, 0, 0], [255, 0, 0, 0]),
    Block([172, 16, 0, 0], [255, 240, 0, 0]),
    Block([192, 168, 0, 0], [255, 255, 0, 0]),
    Block([0, 0, 0, 0, 0, 0, 0, 0, 0, 0, 0, 0, 0, 0, 0, 1],
          [255, 255, 255, 255, 255, 255, 255, 255, 255, 255, 255, 255, 255, 255, 255, 255]),
    Block([254, 128, 0, 0, 0, 0, 0, 0, 0, 0, 0, 0, 0, 0, 0, 0], [255, 192, 0, 0, 0, 0, 0, 0, 0, 0, 0, 0, 0, 0, 0, 0]),
    Block([252, 0, 0, 0, 0, 0, 0, 0, 0, 0, 0, 0, 0, 0, 0, 0], [254, 0, 0, 0, 0, 0, 0, 0, 0, 0, 0, 0, 0, 0, 0, 0])
  ]

  predicate SameMasked(base: bv8, mask: bv8, x: byte) {
    base & mask == (x as bv8) & mask
  }

  /** IPNet.Contains, on an address that is in its shortest form. */
  predicate InBlock(b: Block, ip: NetIP)
    requires |b.base| == |b.mask|
  {
    |ip| == |b.base| && forall i :: 0 <= i < |ip| ==> SameMasked(b.base[i], b.mask[i], ip[i])
  }

  /** The four bytes of an address that has them, else the address. */
  function Shortest(ip: NetIP): NetIP {
    if To4(ip) != [] then To4(ip) else ip
  }

  function Number(ip: NetIP): nat
    requires |ip| == 4
  {
    ((ip[0] as int * 256 + ip[1]) * 256 + ip[2]) * 256 + ip[3]
  }

  predicate PrivateV4(ip: NetIP)
    requires |ip| == 4
  {
    || 0x7f00_0000 <= Number(ip) <= 0x7fff_ffff
    || 0x0a00_0000 <= Number(ip) <= 0x0aff_ffff
    || 0xac10_0000 <= Number(ip) <= 0xac1f_ffff
    || 0xc0a8_0000 <= Number(ip) <= 0xc0a8_ffff
  }

  /** ::1. */
  predicate LoopbackV6(ip: NetIP)
    requires |ip| == 16
  {
    ip[15] == 1 && forall i :: 0 <= i < 15 ==> ip[i] == 0
  }

  /** ::1, and the intervals from fe80:: to febf:... and from fc00:: to fdff:... */
  predicate PrivateV6(ip: NetIP)
    requires |ip| == 16
  {
    LoopbackV6(ip) || 0xfe80 <= ip[0] as int * 256 + ip[1] <= 0xfebf || 0xfc00 <= ip[0] as int * 256 + ip[1] <= 0xfdff
  }

  /** Loopback addresses and the private ranges, as intervals. */
  predicate PrivateNetIP(ip: NetIP) {
    var s := Shortest(ip);
    if |s| == 4 then PrivateV4(s) else |s| == 16 && PrivateV6(s)
  }

  predicate IsPrivate(ip: IPv4) {
    PrivateNetIP(BytesOf(ip))
  }

  /* ----- Masks and intervals ----- */

  lemma Masked(x: byte)
    ensures SameMasked(0, 255, x) <==> x == 0
    ensures SameMasked(1, 255, x) <==> x == 1
    ensures SameMasked(10, 255, x) <==> x == 10
    ensures SameMasked(168, 255, x) <==> x == 168
    ensures SameMasked(172, 255, x) <==> x == 172
    ensures SameMasked(192, 255, x) <==> x == 192
    ensures SameMasked(254, 255, x) <==> x == 254
    ensures SameMasked(16, 240, x) <==> 16 <= x < 32
    ensures SameMasked(128, 192, x) <==> 128 <= x < 192
    ensures SameMasked(252, 254, x) <==> 252 <= x < 254
    ensures SameMasked(0, 0, x)
  {
  }

  lemma AllMasked(ip: NetIP)
    ensures forall i :: 0 <= i < |ip| ==> SameMasked(0, 0, ip[i])
    ensures forall i :: 0 <= i < |ip| ==> (SameMasked(0, 255, ip[i]) <==> ip[i] == 0)
  {
    forall i | 0 <= i < |ip| ensures SameMasked(0, 0, ip[i]) && (SameMasked(0, 255, ip[i]) <==> ip[i] == 0) {
      Masked(ip[i]);
    }
  }

  /** Only the first two bytes count when the rest is masked out. */
  lemma TwoBytes(b: Block, ip: NetIP)
    requires |b.base| == |b.mask| == |ip| >= 2
    requires forall i :: 2 <= i < |ip| ==> b.base[i] == 0 && b.mask[i] == 0
    ensures InBlock(b, ip) <==> SameMasked(b.base[0], b.mask[0], ip[0]) && SameMasked(b.base[1], b.mask[1], ip[1])
  {
    AllMasked(ip);
    hide SameMasked;
  }

  lemma BlocksOfFour(ip: NetIP)
    requires |ip| == 4
    ensures InBlock(BLOCKS[0], ip) <==> ip[0] == 10
    ensures InBlock(BLOCKS[1], ip) <==> ip[0] == 172 && 16 <= ip[1] < 32
    ensures InBlock(BLOCKS[2], ip) <==> ip[0] == 192 && ip[1] == 168
  {
    Masked(ip[0]);
    Masked(ip[1]);
    TwoBytes(BLOCKS[0], ip);
    TwoBytes(BLOCKS[1], ip);
    TwoBytes(BLOCKS[2], ip);
    hide SameMasked, InBlock;
  }

  lemma BlocksOfSixteen(ip: NetIP)
    requires |ip| == 16
    ensures InBlock(BLOCKS[3], ip) <==> LoopbackV6(ip)
    ensures InBlock(BLOCKS[4], ip) <==> ip[0] == 254 && 128 <= ip[1] < 192
    ensures InBlock(BLOCKS[5], ip) <==> 252 <= ip[0] < 254
  {
    Masked(ip[0]);
    Masked(ip[1]);
    TwoBytes(BLOCKS[4], ip);
    TwoBytes(BLOCKS[5], ip);
    LoopbackBlock(ip);
    hide SameMasked, InBlock;
  }

  lemma LoopbackBlock(ip: NetIP)
    requires |ip| == 16
    ensures InBlock(BLOCKS[3], ip) <==> LoopbackV6(ip)
  {
    AllMasked(ip);
    Masked(ip[15]);
    hide SameMasked;
    var b := BLOCKS[3];
    assert forall i :: 0 <= i < 15 ==> b.base[i] == 0 && b.mask[i] == 255;
    assert b.base[15] == 1 && b.mask[15] == 255;
  }

  lemma PrefixesAreIntervals(ip: NetIP)
    requires |ip| == 4
    ensures PrivateV4(ip) <==>
      ip[0] == 127 || ip[0] == 10 || (ip[0] == 172 && 16 <= ip[1] < 32) || (ip[0] == 192 && ip[1] == 168)
  {
  }

  ghost predicate InSomeBlock(ip: NetIP, n: nat)
    requires n <= |BLOCKS|
  {
    exists j :: 0 <= j < n && |BLOCKS[j].base| == |BLOCKS[j].mask| && InBlock(BLOCKS[j], ip)
  }

  /** IP.IsLoopback. */
  predicate IsLoopback(ip: NetIP) {
    if To4(ip) != [] then To4(ip)[0] == 127 else |ip| == 16 && LoopbackV6(ip)
  }

  lemma SomeOfSix(ip: NetIP)
    ensures InSomeBlock(ip, 6) <==>
      || InBlock(BLOCKS[0], ip) || InBlock(BLOCKS[1], ip) || InBlock(BLOCKS[2], ip)
      || InBlock(BLOCKS[3], ip) || InBlock(BLOCKS[4], ip) || InBlock(BLOCKS[5], ip)
  {
    hide InBlock;
  }

  lemma NotInBlock(b: Block, ip: NetIP)
    requires |b.base| == |b.mask| != |ip|
    ensures !InBlock(b, ip)
  {
  }

  lemma SomeBlockOfFour(ip: NetIP)
    requires |ip| == 4
    ensures InSomeBlock(ip, 6) <==> ip[0] == 10 || (ip[0] == 172 && 16 <= ip[1] < 32) || (ip[0] == 192 && ip[1] == 168)
  {
    hide InBlock, InSomeBlock;
    NotInBlock(BLOCKS[3], ip);
    NotInBlock(BLOCKS[4], ip);
    NotInBlock(BLOCKS[5], ip);
    SomeOfSix(ip);
    BlocksOfFour(ip);
  }

  lemma SomeBlockOfSixteen(ip: NetIP)
    requires |ip| == 16
    ensures InSomeBlock(ip, 6) <==> PrivateV6(ip)
  {
    hide InBlock, InSomeBlock, LoopbackV6;
    NotInBlock(BLOCKS[0], ip);
    NotInBlock(BLOCKS[1], ip);
    NotInBlock(BLOCKS[2], ip);
    SomeOfSix(ip);
    BlocksOfSixteen(ip);
  }

  lemma NoBlockOfOtherLength(ip: NetIP)
    requires |ip| != 4 && |ip| != 16
    ensures !InSomeBlock(ip, 6)
  {
    assert forall j :: 0 <= j < 6 ==> |BLOCKS[j].base| == 4 || |BLOCKS[j].base| == 16;
  }

  /** Loopback and byte-wise masks decide interval membership, for addresses of any length. */
  lemma BlocksAreIntervals(ip: NetIP)
    ensures PrivateNetIP(ip) <==> IsLoopback(ip) || InSomeBlock(Shortest(ip), |BLOCKS|)
  {
    hide InSomeBlock, PrivateV4, LoopbackV6;
    assert |BLOCKS| == 6;
    var s := Shortest(ip);
    if |s| == 4 {
      SomeBlockOfFour(s);
      PrefixesAreIntervals(s);
    } else if |s| == 16 {
      SomeBlockOfSixteen(s);
    } else {
      NoBlockOfOtherLength(s);
    }
  }

  method IsPrivateIP(ip: NetIP) returns (r: bool)
    ensures r == PrivateNetIP(ip)
  {
    BlocksAreIntervals(ip);
    if IsLoopback(ip) {
      return true;
    }
    r := InBlocks(Shortest(ip));
  }

  method InBlocks(ip: NetIP) returns (r: bool)
    ensures r == InSomeBlock(ip, |BLOCKS|)
  {
    for i := 0 to |BLOCKS|
      invariant !InSomeBlock(ip, i)
    {
      if InBlock(BLOCKS[i], ip) {
        return true;
      }
    }
    return false;
  }
}
