// The TCP segments the network service sends, and what a receiver reads back from
// them (section 3.1 of RFC 791 and section 3.1 of RFC 9293).
module TcpFrame {
  import opened Base
  import opened Checksum

  const OUR_IP: seq<byte> := [10, 0, 2, 15]
  const MAX_DATA: nat := 64

  type u16 = x: int | 0 <= x < 0x1_0000

  // What a receiver learns from one frame.
  datatype Segment = Segment(
    dmac: seq<byte>,
    smac: seq<byte>,
    src: seq<byte>,
    dst: seq<byte>,
    sport: nat,
    dport: nat,
    seqNo: nat,
    ackNo: nat,
    flags: byte,
    window: nat,
    ident: nat,
    ttl: byte,
    payload: seq<byte>)

  // ----- Big-endian fields -----

  function Be16(s: seq<byte>, i: nat): nat
    requires i + 2 <= |s|
  {
    Word(s[i], s[i + 1])
  }

  function Be32(s: seq<byte>, i: nat): nat
    requires i + 4 <= |s|
  {
    Be16(s, i) * 0x1_0000 + Be16(s, i + 2)
  }

  function Bytes32(v: u32): (r: seq<byte>)
    ensures |r| == 4
    ensures Be32(r, 0) == v
  {
    var hi, lo := v / 0x1_0000, v % 0x1_0000;
    [hi / 256, hi % 256, lo / 256, lo % 256]
  }

  // ----- The receiver -----

  // The pseudo-header that the TCP checksum covers besides the segment.
  function PseudoHeader(src: seq<byte>, dst: seq<byte>, len: u16): seq<byte> {
    src + dst + [0, 6, len / 256, len % 256]
  }

  // An Ethernet/IPv4/TCP frame without options or fragments whose header and segment
  // checksums verify; anything else is not accepted.
  function Parse(f: seq<byte>): Option<Segment> {
    if |f| < 54 || Be16(f, 12) != 0x800 || f[14] != 0x45 || f[23] != 6 || f[46] != 0x50 then None
    else if Be16(f, 16) < 40 || 14 + Be16(f, 16) != |f| || Be16(f, 20) != 0 then None
    else if Sum(f[14..34]) != 0 then None
    else if Sum(PseudoHeader(f[26..30], f[30..34], |f| - 34) + f[34..]) != 0 then None
    else
      Some(Segment(f[0..6], f[6..12], f[26..30], f[30..34], Be16(f, 34), Be16(f, 36),
                   Be32(f, 38), Be32(f, 42), f[47], Be16(f, 48), Be16(f, 18), f[22], f[54..]))
  }

  // ----- The headers, with their checksum fields still zero -----

  function EthernetHeader(dmac: seq<byte>, mac: seq<byte>): seq<byte> {
    dmac + mac + [8, 0]
  }

  function IpHeader(len: u16, dip: seq<byte>): seq<byte> {
    [0x45, 0, len / 256, len % 256, 0x42, 0, 0, 0, 64, 6, 0, 0] + OUR_IP + dip
  }

  function TcpHeader(sport: u16, dport: u16, seqNo: u32, ackNo: u32, flags: byte): seq<byte> {
    [sport / 256, sport % 256, dport / 256, dport % 256] + Bytes32(seqNo) + Bytes32(ackNo)
    + [0x50, flags, 0x40, 0, 0, 0, 0, 0]
  }

  // Sections of a frame.
  predicate HasAt(f: seq<byte>, at: nat, s: seq<byte>) {
    at + |s| <= |f| && f[at..at + |s|] == s
  }

  lemma IpFields(h: seq<byte>, len: u16, dip: seq<byte>, hi: byte, lo: byte)
    requires |dip| == 4 && h == IpHeader(len, dip)[10 := hi][11 := lo]
    ensures |h| == 20 && h[0] == 0x45 && h[9] == 6 && Be16(h, 2) == len && h[12..16] == OUR_IP && h[16..20] == dip
    ensures Be16(h, 4) == 0x4200 && Be16(h, 6) == 0 && h[8] == 64
  {
    var fixed: seq<byte> := [0x45, 0, len / 256, len % 256, 0x42, 0, 0, 0, 64, 6, 0, 0];
    var whole := IpHeader(len, dip);
    assert whole == fixed + OUR_IP + dip && |whole| == 20;
    assert whole[..12] == fixed && whole[12..16] == OUR_IP && whole[16..20] == dip;
    assert h[12..16] == whole[12..16] && h[16..20] == whole[16..20];
    assert forall i :: 0 <= i < 10 ==> h[i] == whole[..12][i];
  }

  lemma TcpFields(h: seq<byte>, sport: u16, dport: u16, seqNo: u32, ackNo: u32, flags: byte, hi: byte, lo: byte)
    requires h == TcpHeader(sport, dport, seqNo, ackNo, flags)[16 := hi][17 := lo]
    ensures |h| == 20 && h[12] == 0x50 && h[13] == flags && Be16(h, 0) == sport && Be16(h, 2) == dport
    ensures Be32(h, 4) == seqNo && Be32(h, 8) == ackNo && Be16(h, 14) == 0x4000
  {
    assert h[4..8] == Bytes32(seqNo) && h[8..12] == Bytes32(ackNo);
    assert Be32(h, 4) == Be32(h[4..8], 0) && Be32(h, 8) == Be32(h[8..12], 0);
  }

  // A frame laid out like this, both of whose checksums verify, is read back.
  lemma ReadBack(f: seq<byte>, mac: seq<byte>, dmac: seq<byte>, dip: seq<byte>, sport: u16, dport: u16, seqNo: u32,
                 ackNo: u32,
                 flags: byte, data: seq<byte>, c: seq<byte>)
    requires |mac| == 6 && |dmac| == 6 && |dip| == 4 && |data| <= MAX_DATA && |f| == 54 + |data| && |c| == 4
    requires HasAt(f, 0, EthernetHeader(dmac, mac)) && f[14..34] == IpHeader(40 + |data|, dip)[10 := c[0]][11 := c[1]]
    requires f[34..54] == TcpHeader(sport, dport, seqNo, ackNo, flags)[16 := c[2]][17 := c[3]] && f[54..] == data
    requires Sum(f[14..34]) == 0 && Sum(PseudoHeader(OUR_IP, dip, 20 + |data|) + f[34..]) == 0
    ensures Parse(f)
         == Some(Segment(dmac, mac, OUR_IP, dip, sport, dport, seqNo, ackNo, flags, 0x4000, 0x4200, 64, data))
  {
    hide Sum, IpHeader, TcpHeader, PseudoHeader;
    var e, ip, tcp := f[..14], f[14..34], f[34..54];
    IpFields(ip, 40 + |data|, dip, c[0], c[1]);
    TcpFields(tcp, sport, dport, seqNo, ackNo, flags, c[2], c[3]);
    assert e[0..6] == dmac && e[6..12] == mac && e[12] == 8 && e[13] == 0;
    assert f[0..6] == e[0..6] && f[6..12] == e[6..12] && f[12] == e[12] && f[13] == e[13];
    assert f[14] == ip[0] && f[23] == ip[9] && f[16] == ip[2] && f[17] == ip[3] && f[22] == ip[8];
    assert Be16(f, 18) == Be16(ip, 4) && Be16(f, 20) == Be16(ip, 6) && Be16(f, 48) == Be16(tcp, 14);
    SliceOfSlice(f, 14, 34, 12, 16);
    SliceOfSlice(f, 14, 34, 16, 20);
    assert f[34] == tcp[0] && f[35] == tcp[1] && f[36] == tcp[2] && f[37] == tcp[3];
    assert f[46] == tcp[12] && f[47] == tcp[13];
    assert Be32(f, 38) == Be32(tcp, 4) && Be32(f, 42) == Be32(tcp, 8);
  }

  // ----- The sender -----

  method TcpChecksum(src: seq<byte>, dst: seq<byte>, segment: seq<byte>) returns (r: nat)
    requires |src| == 4 && |dst| == 4 && |segment| <= 116
    ensures r == Sum(PseudoHeader(src, dst, |segment|) + segment)
  {
    hide Sum;
    var buf := new byte[128](_ => 0);
    CopyInto(buf, 0, src);
    CopyInto(buf, 4, dst);
    buf[9] := 6;
    var len := |segment|;
    buf[10] := len / 256;
    buf[11] := len % 256;
    assert buf[..12] == PseudoHeader(src, dst, len);
    CopyInto(buf, 12, segment);
    assert buf[..12 + len] == PseudoHeader(src, dst, len) + segment;
    r := InetChecksum(buf[..12 + len]);
  }

  // The frame handed to the network card for one segment.
  method Build(mac: seq<byte>, dmac: seq<byte>, dip: seq<byte>, sport: u16, dport: u16, seqNo: u32, ackNo: u32,
               flags: byte, data: seq<byte>) returns (frame: seq<byte>)
    requires |mac| == 6 && |dmac| == 6 && |dip| == 4 && |data| <= MAX_DATA
    ensures Parse(frame)
         == Some(Segment(dmac, mac, OUR_IP, dip, sport, dport, seqNo, ackNo, flags, 0x4000, 0x4200, 64, data))
  {
    hide Sum, IpHeader, TcpHeader, Parse;
    var f := new byte[14 + 20 + 20 + 64](_ => 0);
    FillEthernet(f, mac, dmac);
    FillIp(f, dip, 40 + |data|);
    ghost var front := f[..34];
    FillTcp(f, dip, sport, dport, seqNo, ackNo, flags, data);
    frame := f[..54 + |data|];
    SliceOfSlice(f[..], 0, 54 + |data|, 14, 34);
    SliceOfSlice(f[..], 0, 34, 14, 34);
    assert frame[14..34] == front[14..34];
    assert frame[34..] == f[34..54 + |data|];
    assert frame[34..54] == f[34..54];
    ReadBack(frame, mac, dmac, dip, sport, dport, seqNo, ackNo, flags, data, [f[24], f[25], f[50], f[51]]);
  }

  method FillEthernet(f: array<byte>, mac: seq<byte>, dmac: seq<byte>)
    requires f.Length == 118 && |mac| == 6 && |dmac| == 6
    modifies f
    ensures f[..14] == EthernetHeader(dmac, mac)
    ensures forall j :: 14 <= j < f.Length ==> f[j] == old(f[j])
  {
    for i := 0 to 6
      invariant forall j :: 0 <= j < i ==> f[j] == dmac[j] && f[6 + j] == mac[j]
      invariant forall j :: 14 <= j < f.Length ==> f[j] == old(f[j])
    {
      f[i] := dmac[i];
      f[6 + i] := mac[i];
    }
    f[12] := 8;
    f[13] := 0;
  }

  method FillIp(f: array<byte>, dip: seq<byte>, len: u16)
    requires f.Length == 118 && |dip| == 4 && forall j :: 14 <= j < f.Length ==> f[j] == 0
    modifies f
    ensures f[..14] == old(f[..14])
    ensures f[14..34] == IpHeader(len, dip)[10 := f[24]][11 := f[25]] && Sum(f[14..34]) == 0
    ensures forall j :: 34 <= j < f.Length ==> f[j] == 0
  {
    hide Sum;
    FillIpFields(f, dip, len);
    ghost var header: seq<byte> := f[14..34];
    var sum := InetChecksum(f[14..34]);
    f[24] := sum / 256;
    f[25] := sum % 256;
    assert f[14..34] == Stored(header, 10);
    StoredVerifies(header, 10);
  }

  method FillIpFields(f: array<byte>, dip: seq<byte>, len: u16)
    requires f.Length == 118 && |dip| == 4 && forall j :: 14 <= j < f.Length ==> f[j] == 0
    modifies f
    ensures f[..14] == old(f[..14]) && f[14..34] == IpHeader(len, dip)
    ensures forall j :: 34 <= j < f.Length ==> f[j] == 0
  {
    f[14] := 0x45;
    f[16] := len / 256;
    f[17] := len % 256;
    f[18] := 0x42;
    f[22] := 64;
    f[23] := 6;
    ghost var fixed: seq<byte> := f[14..26];
    assert fixed == [0x45, 0, len / 256, len % 256, 0x42, 0, 0, 0, 64, 6, 0, 0];
    CopyInto(f, 26, OUR_IP);
    assert f[26..30] == OUR_IP;
    CopyInto(f, 30, dip);
    assert f[30..34] == dip;
    assert f[26..30] == OUR_IP;
    assert f[14..26] == fixed;
    ThreeParts(f[..], [0x45, 0, len / 256, len % 256, 0x42, 0, 0, 0, 64, 6, 0, 0], OUR_IP, dip);
  }

  method FillTcp(f: array<byte>, dip: seq<byte>, sport: u16, dport: u16, seqNo: u32, ackNo: u32, flags: byte,
                 data: seq<byte>)
    requires f.Length == 118 && |dip| == 4 && |data| <= MAX_DATA && forall j :: 34 <= j < f.Length ==> f[j] == 0
    modifies f
    ensures f[..34] == old(f[..34])
    ensures f[34..54] == TcpHeader(sport, dport, seqNo, ackNo, flags)[16 := f[50]][17 := f[51]]
    ensures f[54..54 + |data|] == data
    ensures Sum(PseudoHeader(OUR_IP, dip, 20 + |data|) + f[34..54 + |data|]) == 0
  {
    hide Sum;
    FillTcpHeader(f, sport, dport, seqNo, ackNo, flags);
    ghost var filled: seq<byte> := f[34..54];
    CopyInto(f, 54, data);
    ghost var header: seq<byte> := f[34..54];
    assert header == filled;
    assert f[54..54 + |data|] == data;
    var end := 54 + |data|;
    var sum := TcpChecksum(OUR_IP, dip, f[34..end]);
    ghost var covered: seq<byte> := PseudoHeader(OUR_IP, dip, 20 + |data|) + f[34..end];
    assert header[16] == 0 && header[17] == 0;
    assert covered[28] == f[50] && covered[29] == f[51];
    f[50] := sum / 256;
    f[51] := sum % 256;
    assert f[34..54] == header[16 := f[50]][17 := f[51]];
    assert PseudoHeader(OUR_IP, dip, 20 + |data|) + f[34..end] == Stored(covered, 28);
    StoredVerifies(covered, 28);
  }

  method FillTcpHeader(f: array<byte>, sport: u16, dport: u16, seqNo: u32, ackNo: u32, flags: byte)
    requires f.Length == 118 && forall j :: 34 <= j < f.Length ==> f[j] == 0
    modifies f
    ensures f[..34] == old(f[..34]) && f[34..54] == TcpHeader(sport, dport, seqNo, ackNo, flags)
    ensures forall j :: 54 <= j < f.Length ==> f[j] == 0
  {
    FillPorts(f, sport, dport);
    CopyInto(f, 38, Bytes32(seqNo));
    CopyInto(f, 42, Bytes32(ackNo));
    FillControl(f, flags);
    assert f[34..38] == [sport / 256, sport % 256, dport / 256, dport % 256];
    FourParts(f[..], [sport / 256, sport % 256, dport / 256, dport % 256], Bytes32(seqNo), Bytes32(ackNo),
              [0x50, flags, 0x40, 0, 0, 0, 0, 0]);
  }

  method FillPorts(f: array<byte>, sport: u16, dport: u16)
    requires f.Length == 118
    modifies f
    ensures f[34..38] == [sport / 256, sport % 256, dport / 256, dport % 256]
    ensures forall j :: 0 <= j < f.Length && !(34 <= j < 38) ==> f[j] == old(f[j])
  {
    f[34] := sport / 256;
    f[35] := sport % 256;
    f[36] := dport / 256;
    f[37] := dport % 256;
  }

  method FillControl(f: array<byte>, flags: byte)
    requires f.Length == 118 && forall j :: 46 <= j < f.Length ==> f[j] == 0
    modifies f
    ensures f[46..54] == [0x50, flags, 0x40, 0, 0, 0, 0, 0]
    ensures forall j :: 0 <= j < f.Length && !(46 <= j < 54) ==> f[j] == old(f[j])
  {
    f[46] := 0x50;
    f[47] := flags;
    f[48] := 0x40;
  }

  lemma ThreeParts(f: seq<byte>, a: seq<byte>, b: seq<byte>, c: seq<byte>)
    requires |f| == 118 && f[14..26] == a && f[26..30] == b && f[30..34] == c
    ensures f[14..34] == a + b + c
  {
    assert f[14..34] == f[14..26] + f[26..30] + f[30..34];
  }

  lemma FourParts(f: seq<byte>, a: seq<byte>, b: seq<byte>, c: seq<byte>, d: seq<byte>)
    requires |f| == 118 && f[34..38] == a && f[38..42] == b && f[42..46] == c && f[46..54] == d
    ensures f[34..54] == a + b + c + d
  {
    assert f[34..54] == f[34..38] + f[38..42] + f[42..46] + f[46..54];
  }
}
