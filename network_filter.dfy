/** The egress filter attached to the sandbox's cgroup: a classifier over the bytes of
    an outgoing Ethernet frame that answers 1 (let it through) or 0 (drop it). The host
    is little-endian, so a 16- or 32-bit field read from the frame holds its wire bytes
    in reverse significance. */
module NetworkFilter {

  type Frame = seq<bv8>

  const EthHeaderLen := 14   // destination, source, ethertype
  const IpHeaderLen := 20    // the fixed IPv4 header of section 3.1 of RFC 791
  const EthPIp: bv16 := 0x0800
  const ProtocolOffset := 14 + 9
  const DaddrOffset := 14 + 16

  /** A 16-bit field as the little-endian host reads it. */
  function Load16(p: Frame, off: nat): bv16
    requires off + 2 <= |p|
  {
    (p[off] as bv16) | ((p[off + 1] as bv16) << 8)
  }

  /** A 32-bit field as the little-endian host reads it. */
  function Load32(p: Frame, off: nat): bv32
    requires off + 4 <= |p|
  {
    (p[off] as bv32) | ((p[off + 1] as bv32) << 8) | ((p[off + 2] as bv32) << 16) | ((p[off + 3] as bv32) << 24)
  }

  /** `__builtin_bswap16`, used as `bpf_htons`. */
  function Bswap16(x: bv16): bv16 {
    (x >> 8) | (x << 8)
  }

  /** `__builtin_bswap32`, used as `bpf_ntohl`. */
  function Bswap32(x: bv32): bv32 {
    (x >> 24) | ((x >> 8) & 0xFF00) | ((x << 8) & 0xFF_0000) | (x << 24)
  }

  /** The raw `daddr` of a frame whose destination is the dotted quad a.b.c.d. */
  function RawAddress(a: bv8, b: bv8, c: bv8, d: bv8): (r: bv32)
    ensures Load32([a, b, c, d], 0) == r
  {
    (a as bv32) | ((b as bv32) << 8) | ((c as bv32) << 16) | ((d as bv32) << 24)
  }

  /** `hedera_ips`, as written. */
  const HederaIps: seq<bv32> := [
    0x3D5E6A22, 0xD38432CB, 0x37ED2337, 0x0D06D403, 0xC11B27F5,
    0x5612D434, 0x74532216, 0x21C04636, 0x04A05E22, 0x6DC7B036,
    0xDA6622DA, 0x93319B23, 0xE6C52216, 0xCFFC0E34, 0xCBE62623
  ]

  /** The decision of `filter_egress` against an allowlist of raw `daddr` values. */
  function Verdict(p: Frame, ips: seq<bv32>): (r: int) {
    if |p| < EthHeaderLen then 1
    else if Load16(p, 12) != Bswap16(EthPIp) then 1
    else if |p| < EthHeaderLen + IpHeaderLen then 1
    else if Bswap32(Load32(p, DaddrOffset)) & 0xFF00_0000 == 0x7F00_0000 then 1
    else if Load32(p, DaddrOffset) in ips then 1
    else 0
  }

  /** `filter_egress`: the bounds and field checks, then the search of the allowlist. */
  method FilterEgress(p: Frame, ips: seq<bv32>) returns (r: int)
    ensures r == Verdict(p, ips)
  {
    if |p| < EthHeaderLen {
      return 1;
    }
    if Load16(p, 12) != Bswap16(EthPIp) {
      return 1;
    }
    if |p| < EthHeaderLen + IpHeaderLen {
      return 1;
    }
    var destIp := Bswap32(Load32(p, DaddrOffset));
    if destIp & 0xFF00_0000 == 0x7F00_0000 {
      return 1;
    }
    var daddr := Load32(p, DaddrOffset);
    for i := 0 to |ips|
      invariant forall j :: 0 <= j < i ==> ips[j] != daddr
    {
      if daddr == ips[i] {
        return 1;
      }
    }
    return 0;
  }

  /** The frame carries IPv4 exactly when its ethertype bytes are 0x08 0x00 on the wire. */
  lemma EtherTypeOnWire(p: Frame)
    requires |p| >= EthHeaderLen
    ensures Load16(p, 12) == Bswap16(EthPIp) <==> p[12] == 0x08 && p[13] == 0x00
  {
  }

  /** The localhost test looks at the first destination byte on the wire. */
  lemma LocalhostOnWire(p: Frame)
    requires |p| >= EthHeaderLen + IpHeaderLen
    ensures Bswap32(Load32(p, DaddrOffset)) & 0xFF00_0000 == 0x7F00_0000 <==> p[DaddrOffset] == 127
  {
  }

  /** The result is always 0 or 1; a frame too short to inspect, a frame that is not
      IPv4 and an IPv4 frame without a full header are let through. */
  lemma UninspectedAllowed(p: Frame, ips: seq<bv32>)
    ensures Verdict(p, ips) == 0 || Verdict(p, ips) == 1
    ensures |p| < EthHeaderLen ==> Verdict(p, ips) == 1
    ensures |p| >= EthHeaderLen && !(p[12] == 0x08 && p[13] == 0x00) ==> Verdict(p, ips) == 1
    ensures |p| < EthHeaderLen + IpHeaderLen ==> Verdict(p, ips) == 1
  {
    if |p| >= EthHeaderLen {
      EtherTypeOnWire(p);
    }
  }

  /** A complete IPv4 frame is dropped exactly when its destination lies outside
      127.0.0.0/8 and its raw `daddr` is not on the allowlist. */
  lemma InspectedFrame(p: Frame, ips: seq<bv32>)
    requires |p| >= EthHeaderLen + IpHeaderLen && p[12] == 0x08 && p[13] == 0x00
    ensures Verdict(p, ips) == 0
            <==> p[DaddrOffset] != 127 && RawAddress(p[30], p[31], p[32], p[33]) !in ips
  {
    EtherTypeOnWire(p);
    LocalhostOnWire(p);
  }

  /** The protocol byte plays no part: a frame differing only in it gets the same
      verdict, so DNS traffic to other addresses is dropped too. */
  lemma ProtocolIgnored(p: Frame, protocol: bv8, ips: seq<bv32>)
    requires |p| >= EthHeaderLen + IpHeaderLen
    ensures Verdict(p[ProtocolOffset := protocol], ips) == Verdict(p, ips)
  {
    var q := p[ProtocolOffset := protocol];
    assert q[12] == p[12] && q[13] == p[13];
    assert Load16(q, 12) == Load16(p, 12);
    assert q[30] == p[30] && q[31] == p[31] && q[32] == p[32] && q[33] == p[33];
    assert Load32(q, DaddrOffset) == Load32(p, DaddrOffset);
  }

  // ---------------------------------------------------------------- the intended allowlist

  /** The testnet node addresses named beside each entry of `hedera_ips`, in order. */
  const CommentedAddresses: seq<(bv8, bv8, bv8, bv8)> := [
    (34, 94, 106, 61), (50, 18, 132, 211), (35, 237, 119, 55), (3, 212, 6, 13),
    (35, 245, 27, 193), (52, 20, 18, 86), (34, 83, 112, 116), (54, 70, 192, 33),
    (34, 94, 160, 4), (54, 176, 199, 109), (34, 106, 102, 218), (35, 155, 49, 147),
    (34, 133, 197, 230), (52, 14, 252, 207), (35, 186, 230, 203)
  ]

  function RawOf(q: (bv8, bv8, bv8, bv8)): bv32 {
    RawAddress(q.0, q.1, q.2, q.3)
  }

  /** The allowlist the comments describe, in the same order. */
  const IntendedIps: seq<bv32> := [
    0x3D6A5E22, 0xD3841232, 0x3777ED23, 0x0D06D403, 0xC11BF523,
    0x56121434, 0x74705322, 0x21C04636, 0x04A05E22, 0x6DC7B036,
    0xDA666A22, 0x93319B23, 0xE6C58522, 0xCFFC0E34, 0xCBE6BA23
  ]

  /** Each intended entry is the raw `daddr` of the address commented beside it. */
  lemma IntendedIpsMatchComments()
    ensures |IntendedIps| == |CommentedAddresses|
    ensures forall i :: 0 <= i < |IntendedIps| ==> IntendedIps[i] == RawOf(CommentedAddresses[i])
  {
  }

  /** As written, only six of the fifteen entries denote the address beside them; the
      other nine commented nodes are on no entry at all. */
  lemma AsWrittenEntries()
    ensures |HederaIps| == |IntendedIps|
    ensures forall i :: 0 <= i < |HederaIps| ==> (HederaIps[i] == IntendedIps[i] <==> i in {3, 7, 8, 9, 11, 13})
    ensures forall i :: 0 <= i < |IntendedIps| && i !in {3, 7, 8, 9, 11, 13} ==> IntendedIps[i] !in HederaIps
  {
  }

  /** An IPv4 frame to 34.94.106.61, the first commented node, is dropped as written. */
  lemma FirstNodeDropped(p: Frame)
    requires |p| >= EthHeaderLen + IpHeaderLen && p[12] == 0x08 && p[13] == 0x00
    requires p[30] == 34 && p[31] == 94 && p[32] == 106 && p[33] == 61
    ensures Verdict(p, HederaIps) == 0
  {
    InspectedFrame(p, HederaIps);
    assert RawAddress(34, 94, 106, 61) == 0x3D6A5E22;
  }

  /** With the intended allowlist every commented node is reachable. */
  lemma IntendedNodesAllowed(p: Frame, i: nat)
    requires i < |CommentedAddresses|
    requires |p| >= EthHeaderLen + IpHeaderLen && p[12] == 0x08 && p[13] == 0x00
    requires (p[30], p[31], p[32], p[33]) == CommentedAddresses[i]
    ensures Verdict(p, IntendedIps) == 1
  {
    InspectedFrame(p, IntendedIps);
    IntendedIpsMatchComments();
    assert IntendedIps[i] == RawAddress(p[30], p[31], p[32], p[33]);
  }
}
