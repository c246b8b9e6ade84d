/** The byte format of MRP frames: what the `mrp_send_*` functions store in a frame buffer and
    what the fixed-offset readers of `mrp_recv_*` make of the bytes that arrive. */
module MrpFrames {
  import opened MrpTypes

  type u32 = x: nat | x < 0x1_0000_0000

  const ETH_HEADER := 14
  const MIN_FRAME := 60
  const MAX_PAYLOAD := 200

  function Bytes16(x: u16): (b: seq<u8>)
    ensures |b| == 2 && Be16(b[0], b[1]) == x
  {
    [x / 0x100, x % 0x100]
  }

  function Bytes32(x: u32): (b: seq<u8>)
    ensures |b| == 4
  {
    Bytes16(x / 0x1_0000) + Bytes16(x % 0x1_0000)
  }

  function Zeros(n: nat): seq<u8> { seq(n, _ => 0) }

  /** The domain UUID, which `mrp_create` sets and nothing changes. */
  function Domain(): seq<u8> { seq(16, _ => 0xFF) }

  // ---- Layout

  /** The frames that some `mrp_send_*` function composes. */
  predicate Composable(pdu: Pdu) { !pdu.Unknown? && !pdu.OtherOption? }

  function TlvType(pdu: Pdu): u8
    requires Composable(pdu)
  {
    match pdu
    case Test(_, _, _, _, _) => 0x02
    case Topo(_, _, _) => 0x03
    case Link(up, _, _, _, _) => if up then 0x05 else 0x04
    case Nack(_, _, _, _) => 0x7F
    case Propagate(_, _, _, _) => 0x7F
    case InTest(_, _, _, _, _) => 0x06
    case InTopo(_, _, _) => 0x07
    case InLink(up, _, _, _, _) => if up then 0x09 else 0x08
    case InLinkStatus(_, _, _) => 0x0A
  }

  /** The length that the first TLV header claims. */
  function TlvLength(pdu: Pdu): u8
    requires Composable(pdu)
  {
    match pdu
    case Test(_, _, _, _, _) => 18
    case Topo(_, _, _) => 10
    case Link(_, _, _, _, _) => 12
    case Nack(_, _, _, _) => 24
    case Propagate(_, _, _, _) => 24
    case InTest(_, _, _, _, _) => 18
    case InTopo(_, _, _) => 10
    case InLink(_, _, _, _, _) => 12
    case InLinkStatus(_, _, _) => 10
  }

  /** The group address a frame is sent to. */
  function Destination(pdu: Pdu): Mac
    requires Composable(pdu)
  {
    [0x01, 0x15, 0x4E, 0x00, 0x00,
     if pdu.Test? || pdu.IsOption() then 1 else if pdu.IsRingFrame() then 2 else if pdu.InTest? then 3 else 4]
  }

  function RoleCode(r: PortRole): u16 {
    match r
    case Primary => 0
    case Secondary => 1
    case Interconnect => 2
  }

  function StateCode(closed: bool): u16 { if closed then 1 else 0 }

  /** An option frame: an empty OUI, an empty sub-option and one sub-TLV. */
  function Option(kind: u8, prio: u16, sa: Mac, otherPrio: u16, otherSa: Mac): (b: seq<u8>)
    ensures |b| == 24
  {
    Zeros(3) + Zeros(3) + [kind, 18] + (Bytes16(prio) + sa + Bytes16(otherPrio) + otherSa)
  }

  /** The length of what follows: two bytes of padding in a TestMgrNAck are not claimed. */
  function BodyLength(pdu: Pdu): (n: nat)
    requires Composable(pdu)
    ensures 10 <= n <= 26
  {
    if pdu.Nack? then TlvLength(pdu) + 2 else TlvLength(pdu)
  }

  /** The structure that follows the first TLV header. */
  function Body(pdu: Pdu, stamp: u32): (b: seq<u8>)
    requires Composable(pdu)
    ensures |b| == BodyLength(pdu)
  {
    match pdu
    case Test(prio, sa, role, closed, transitions) =>
      Bytes16(prio) + sa + Bytes16(RoleCode(role)) + Bytes16(StateCode(closed)) + Bytes16(transitions) + Bytes32(stamp)
    case Topo(prio, sa, interval) => Bytes16(prio) + sa + Bytes16(interval)
    case Link(_, sa, role, interval, blocked) =>
      sa + Bytes16(RoleCode(role)) + Bytes16(interval) + Bytes16(blocked)
    case Nack(prio, sa, otherPrio, otherSa) => Option(1, prio, sa, otherPrio, otherSa) + Zeros(2)
    case Propagate(prio, sa, otherPrio, otherSa) => Option(2, prio, sa, otherPrio, otherSa)
    case InTest(id, sa, role, closed, transitions) =>
      Bytes16(id) + sa + Bytes16(RoleCode(role)) + Bytes16(StateCode(closed)) + Bytes16(transitions) + Bytes32(stamp)
    case InTopo(sa, id, interval) => sa + Bytes16(id) + Bytes16(interval)
    case InLink(_, sa, role, id, interval) => sa + Bytes16(RoleCode(role)) + Bytes16(id) + Bytes16(interval)
    case InLinkStatus(sa, role, id) => sa + Bytes16(RoleCode(role)) + Bytes16(id)
  }

  /** The common TLV and the end TLV. */
  function Common(seqId: u16): (b: seq<u8>)
    ensures |b| == 22 && b[0] == 1 && b[1] == 18 && Be16(b[2], b[3]) == seqId
  {
    [1, 18] + (Bytes16(seqId) + Domain()) + [0, 0]
  }

  /** The version and the first TLV header. */
  function Head(pdu: Pdu): (b: seq<u8>)
    requires Composable(pdu)
    ensures |b| == 4 && b[2] == TlvType(pdu) && b[3] == TlvLength(pdu)
  {
    Bytes16(1) + [TlvType(pdu), TlvLength(pdu)]
  }

  /** Version, first TLV, common TLV and end TLV. */
  function Payload(pdu: Pdu, stamp: u32, seqId: u16): (b: seq<u8>)
    requires Composable(pdu)
    ensures |b| == 4 + |Body(pdu, stamp)| + 22
  {
    Head(pdu) + Body(pdu, stamp) + Common(seqId)
  }

  function EthHeader(dst: Mac, src: Mac): (b: seq<u8>)
    ensures |b| == ETH_HEADER
  {
    dst + src + [0x88, 0xE3]
  }

  /** How far a payload of `size` bytes falls short of the minimum frame. */
  function Missing(size: nat): nat {
    if ETH_HEADER + size < MIN_FRAME then MIN_FRAME - ETH_HEADER - size else 0
  }

  function Padded(payload: seq<u8>): seq<u8> { payload + Zeros(Missing(|payload|)) }

  /** What leaves the host for a composed frame. */
  function Wire(pdu: Pdu, src: Mac, stamp: u32, seqId: u16): seq<u8>
    requires Composable(pdu)
  {
    EthHeader(Destination(pdu), src) + Padded(Payload(pdu, stamp, seqId))
  }

  // ---- Fixed-offset readers

  function Read16(h: seq<u8>, at: nat): u16
    requires at + 2 <= |h|
  {
    Be16(h[at], h[at + 1])
  }

  function ReadMac(h: seq<u8>, at: nat): Mac
    requires at + 6 <= |h|
  {
    h[at..at + 6]
  }

  function ReadRole(h: seq<u8>, at: nat): PortRole
    requires at + 2 <= |h|
  {
    match Read16(h, at)
    case 0 => Primary
    case 1 => Secondary
    case _ => Interconnect
  }

  /** The fields of a frame of the given type whose first structure starts at `h`. */
  function ReadBody(kind: u8, h: seq<u8>): Pdu
    requires |h| >= 24
  {
    match kind
    case 0x02 => Test(Read16(h, 0), ReadMac(h, 2), ReadRole(h, 8), Read16(h, 10) == 1, Read16(h, 12))
    case 0x03 => Topo(Read16(h, 0), ReadMac(h, 2), Read16(h, 8))
    case 0x04 => Link(false, ReadMac(h, 0), ReadRole(h, 6), Read16(h, 8), Read16(h, 10))
    case 0x05 => Link(true, ReadMac(h, 0), ReadRole(h, 6), Read16(h, 8), Read16(h, 10))
    case 0x06 => InTest(Read16(h, 0), ReadMac(h, 2), ReadRole(h, 8), Read16(h, 10) == 1, Read16(h, 12))
    case 0x07 => InTopo(ReadMac(h, 0), Read16(h, 6), Read16(h, 8))
    case 0x08 => InLink(false, ReadMac(h, 0), ReadRole(h, 6), Read16(h, 8), Read16(h, 10))
    case 0x09 => InLink(true, ReadMac(h, 0), ReadRole(h, 6), Read16(h, 8), Read16(h, 10))
    case 0x0A => InLinkStatus(ReadMac(h, 0), ReadRole(h, 6), Read16(h, 8))
    case 0x7F =>
      if h[6] == 1 then Nack(Read16(h, 8), ReadMac(h, 10), Read16(h, 16), ReadMac(h, 18))
      else if h[6] == 2 then Propagate(Read16(h, 8), ReadMac(h, 10), Read16(h, 16), ReadMac(h, 18))
      else OtherOption
    case _ => Unknown
  }

  /** `mrp_recv` on a frame of at least the minimum Ethernet length: skip the Ethernet header and
      the version, and let the type select the structure behind the TLV header. */
  function ReadFrame(f: seq<u8>): Pdu
    requires |f| >= MIN_FRAME
  {
    ReadAs(f[16], f)
  }

  /** `mrp_process` on a copy of a frame whose type was read before. */
  function ReadAs(kind: u8, f: seq<u8>): Pdu
    requires |f| >= MIN_FRAME
  {
    ReadBody(kind, f[18..])
  }

  /** The types whose handlers read the type once more, from the copy. */
  predicate IsLinkType(kind: u8) { kind == 0x04 || kind == 0x05 || kind == 0x08 || kind == 0x09 }

  /** `mrp_get_in_test_hdr(...)->id`, which `mrp_check_and_forward` reads from every interconnect frame. */
  function ReadForwardingId(f: seq<u8>): u16
    requires |f| >= MIN_FRAME
  {
    Read16(f[18..], 0)
  }

  /** The sequence number in the common TLV of a frame that this program composed. */
  function ReadSeqId(f: seq<u8>): u16
    requires |f| >= MIN_FRAME
    requires Composable(ReadFrame(f))
  {
    Read16(f[18..], BodyLength(ReadFrame(f)) + 2)
  }

  // ---- Short frames

  /** The buffer that frames are received into, and the one they are processed in. */
  const PACKET := 2048

  /** The processing buffer after the first `n` bytes were copied to it. */
  function Copied(buf: seq<u8>, n: nat, stale: seq<u8>): (r: seq<u8>)
    requires n <= |buf| == |stale|
    ensures |r| == |buf|
  {
    buf[..n] + stale[n..]
  }

  /** Two buffers that hold the same received frame of `n` bytes. */
  predicate SameFrame(f: seq<u8>, g: seq<u8>, n: nat) {
    MIN_FRAME <= |f| == |g| && n <= |f| && forall i :: 0 <= i < n ==> f[i] == g[i]
  }

  /** No reader looks behind the 42nd byte. */
  lemma FieldsWithin(f: seq<u8>, g: seq<u8>)
    requires SameFrame(f, g, 42)
    ensures ReadFrame(f) == ReadFrame(g)
  {
    var h, k := f[18..], g[18..];
    assert forall i :: 0 <= i < 24 ==> h[i] == f[18 + i] && k[i] == g[18 + i];
    assert ReadMac(h, 0) == ReadMac(k, 0) && ReadMac(h, 2) == ReadMac(k, 2);
    assert ReadMac(h, 10) == ReadMac(k, 10) && ReadMac(h, 18) == ReadMac(k, 18);
  }

  /** A received frame alone decides what is read exactly if it has 42 bytes; of a shorter one the
      readers may see what the buffer held before. */
  lemma DecidedIff(n: nat)
    requires n <= MIN_FRAME
    ensures (forall f: seq<u8>, g: seq<u8> :: SameFrame(f, g, n) ==> ReadFrame(f) == ReadFrame(g)) <==> n >= 42
  {
    if n >= 42 {
      forall f: seq<u8>, g: seq<u8> | SameFrame(f, g, n) ensures ReadFrame(f) == ReadFrame(g) {
        FieldsWithin(f, g);
      }
    } else {
      var f: seq<u8> := seq(MIN_FRAME, i => if i == 16 then 0x7F else if i == 24 then 1 else 0);
      var g: seq<u8> := f[41 := 1];
      assert SameFrame(f, g, n);
      assert ReadFrame(f).otherSa[5] == f[41] && ReadFrame(g).otherSa[5] == g[41];
    }
  }

  // ---- Round trip

  lemma SixPieces(a: seq<u8>, b: seq<u8>, c: seq<u8>, d: seq<u8>, e: seq<u8>, f: seq<u8>, rest: seq<u8>)
    requires |a| == 2 && |b| == 6 && |c| == 2 && |d| == 2 && |e| == 2
    ensures var h := a + b + c + d + e + f + rest;
            && h[0] == a[0] && h[1] == a[1] && h[2..8] == b && h[8] == c[0] && h[9] == c[1]
            && h[10] == d[0] && h[11] == d[1] && h[12] == e[0] && h[13] == e[1]
  {
  }

  /** The first five members of a test frame, ring or interconnect, are read at their offsets. */
  lemma ReadSix(x: u16, sa: Mac, y: u16, z: u16, w: u16, f: seq<u8>, rest: seq<u8>)
    ensures var h := Bytes16(x) + sa + Bytes16(y) + Bytes16(z) + Bytes16(w) + f + rest;
            && Read16(h, 0) == x && ReadMac(h, 2) == sa && Read16(h, 8) == y
            && Read16(h, 10) == z && Read16(h, 12) == w
  {
    SixPieces(Bytes16(x), sa, Bytes16(y), Bytes16(z), Bytes16(w), f, rest);
  }

  lemma RingTestBody(pdu: Pdu, stamp: u32, rest: seq<u8>)
    requires Composable(pdu) && pdu.Test?
    requires |Body(pdu, stamp) + rest| >= 24
    ensures ReadBody(TlvType(pdu), Body(pdu, stamp) + rest) == pdu
  {
    ReadSix(pdu.prio, pdu.sa, RoleCode(pdu.portRole), StateCode(pdu.closed), pdu.transitions, Bytes32(stamp), rest);
  }

  lemma RingBodies(pdu: Pdu, stamp: u32, rest: seq<u8>)
    requires Composable(pdu) && pdu.IsRingFrame() && !pdu.IsOption()
    requires |Body(pdu, stamp) + rest| >= 24
    ensures ReadBody(TlvType(pdu), Body(pdu, stamp) + rest) == pdu
  {
    var h := Body(pdu, stamp) + rest;
    match pdu {
      case Test(_, _, _, _, _) => RingTestBody(pdu, stamp, rest);
      case Topo(_, sa, _) => assert ReadMac(h, 2) == sa;
      case Link(_, sa, _, _, _) => assert ReadMac(h, 0) == sa;
    }
  }

  lemma OptionBodies(pdu: Pdu, stamp: u32, rest: seq<u8>)
    requires Composable(pdu) && pdu.IsOption()
    ensures ReadBody(TlvType(pdu), Body(pdu, stamp) + rest) == pdu
  {
    var h := Body(pdu, stamp) + rest;
    assert ReadMac(h, 10) == pdu.sa && ReadMac(h, 18) == pdu.otherSa;
  }

  lemma InTestBody(pdu: Pdu, stamp: u32, rest: seq<u8>)
    requires Composable(pdu) && pdu.InTest?
    requires |Body(pdu, stamp) + rest| >= 24
    ensures ReadBody(TlvType(pdu), Body(pdu, stamp) + rest) == pdu
    ensures Read16(Body(pdu, stamp) + rest, 0) == pdu.ForwardingId()
  {
    ReadSix(pdu.id, pdu.sa, RoleCode(pdu.portRole), StateCode(pdu.closed), pdu.transitions, Bytes32(stamp), rest);
  }

  lemma InBodies(pdu: Pdu, stamp: u32, rest: seq<u8>)
    requires Composable(pdu) && pdu.IsInFrame() && !pdu.InTest?
    requires |Body(pdu, stamp) + rest| >= 24
    ensures ReadBody(TlvType(pdu), Body(pdu, stamp) + rest) == pdu
    ensures Read16(Body(pdu, stamp) + rest, 0) == pdu.ForwardingId()
  {
    var h := Body(pdu, stamp) + rest;
    assert ReadMac(h, 0) == pdu.sa;
    assert h[0] == ReadMac(h, 0)[0] && h[1] == ReadMac(h, 0)[1];
  }

  /** Common TLV, end TLV and padding of a composed frame. */
  function Tail(pdu: Pdu, seqId: u16): (b: seq<u8>)
    requires Composable(pdu)
    ensures |b| >= 22 && b[..22] == Common(seqId)
  {
    Common(seqId) + Zeros(Missing(26 + BodyLength(pdu)))
  }

  lemma Layout(eth: seq<u8>, head: seq<u8>, body: seq<u8>, common: seq<u8>, zeros: seq<u8>)
    requires |eth| == 14 && |head| == 4
    ensures var f := eth + (head + body + common + zeros);
            f[16] == head[2] && f[17] == head[3] && f[18..] == body + (common + zeros)
  {
  }

  lemma WireParts(pdu: Pdu, src: Mac, stamp: u32, seqId: u16)
    requires Composable(pdu)
    ensures var f := Wire(pdu, src, stamp, seqId);
            && |f| >= MIN_FRAME
            && f[16] == TlvType(pdu) && f[17] == TlvLength(pdu)
            && f[18..] == Body(pdu, stamp) + Tail(pdu, seqId)
  {
    Layout(EthHeader(Destination(pdu), src), Head(pdu), Body(pdu, stamp), Common(seqId),
           Zeros(Missing(26 + BodyLength(pdu))));
  }

  /** The bytes of the common TLV lie behind the first structure. */
  lemma CommonAt(pdu: Pdu, stamp: u32, seqId: u16, k: nat)
    requires Composable(pdu) && k < 22
    ensures var h := Body(pdu, stamp) + Tail(pdu, seqId);
            |h| > BodyLength(pdu) + k && h[BodyLength(pdu) + k] == Common(seqId)[k]
  {
    assert Tail(pdu, seqId)[k] == Tail(pdu, seqId)[..22][k];
  }

  lemma BodyRoundTrip(pdu: Pdu, stamp: u32, rest: seq<u8>)
    requires Composable(pdu) && |Body(pdu, stamp) + rest| >= 24
    ensures ReadBody(TlvType(pdu), Body(pdu, stamp) + rest) == pdu
  {
    if pdu.InTest? {
      InTestBody(pdu, stamp, rest);
    } else if pdu.IsInFrame() {
      InBodies(pdu, stamp, rest);
    } else if pdu.IsOption() {
      OptionBodies(pdu, stamp, rest);
    } else {
      RingBodies(pdu, stamp, rest);
    }
  }

  /** The last byte of the group address a frame is sent to. */
  function Group(pdu: Pdu): u8
    requires Composable(pdu)
  {
    match pdu
    case Test(_, _, _, _, _) => 1
    case Nack(_, _, _, _) => 1
    case Propagate(_, _, _, _) => 1
    case Topo(_, _, _) => 2
    case Link(_, _, _, _, _) => 2
    case InTest(_, _, _, _, _) => 3
    case InTopo(_, _, _) => 4
    case InLink(_, _, _, _, _) => 4
    case InLinkStatus(_, _, _) => 4
  }

  lemma FrontOf(dst: Mac, src: Mac, rest: seq<u8>)
    requires |rest| >= 2
    ensures var f := EthHeader(dst, src) + rest;
            f[..6] == dst && f[6..12] == src && f[12..16] == [0x88, 0xE3] + rest[..2]
  {
    var f := EthHeader(dst, src) + rest;
    assert f == dst + (src + ([0x88, 0xE3] + rest));
  }

  lemma GroupAddress(pdu: Pdu)
    requires Composable(pdu)
    ensures Destination(pdu) == [0x01, 0x15, 0x4E, 0x00, 0x00, Group(pdu)]
  {
  }

  lemma VersionFirst(pdu: Pdu, body: seq<u8>, common: seq<u8>, zeros: seq<u8>)
    requires Composable(pdu)
    ensures (Head(pdu) + body + common + zeros)[..2] == [0, 1]
  {
    assert (Head(pdu) + body + common + zeros)[..2] == Head(pdu)[..2];
  }

  /** Group address, source address, Ethernet type and version, by position. */
  lemma FrontBytes(pdu: Pdu, src: Mac, stamp: u32, seqId: u16)
    requires Composable(pdu)
    ensures var f := Wire(pdu, src, stamp, seqId);
            && |f| >= MIN_FRAME && f[..6] == [0x01, 0x15, 0x4E, 0x00, 0x00, Group(pdu)]
            && f[6..12] == src && f[12..16] == [0x88, 0xE3, 0x00, 0x01]
  {
    FrameSize(pdu, src, stamp, seqId);
    GroupAddress(pdu);
    VersionFirst(pdu, Body(pdu, stamp), Common(seqId), Zeros(Missing(|Payload(pdu, stamp, seqId)|)));
    FrontOf(Destination(pdu), src, Padded(Payload(pdu, stamp, seqId)));
  }

  /** Domain and end TLV behind the sequence number, by position. */
  lemma BackBytes(pdu: Pdu, src: Mac, stamp: u32, seqId: u16, k: nat)
    requires Composable(pdu) && 4 <= k < 22
    ensures var h := Wire(pdu, src, stamp, seqId)[18..];
            |h| > BodyLength(pdu) + k && h[BodyLength(pdu) + k] == if k < 20 then 0xFF else 0
  {
    WireParts(pdu, src, stamp, seqId);
    CommonAt(pdu, stamp, seqId, k);
  }

  /** Every composed frame is read back as it was composed, and its sequence number with it. */
  lemma FrameRoundTrip(pdu: Pdu, src: Mac, stamp: u32, seqId: u16)
    requires Composable(pdu)
    ensures var f := Wire(pdu, src, stamp, seqId);
            |f| >= MIN_FRAME && ReadFrame(f) == pdu && ReadSeqId(f) == seqId
  {
    WireParts(pdu, src, stamp, seqId);
    BodyRoundTrip(pdu, stamp, Tail(pdu, seqId));
    CommonAt(pdu, stamp, seqId, 2);
    CommonAt(pdu, stamp, seqId, 3);
  }

  /** The id by which interconnect frames are forwarded is the one the value model uses, first
      bytes of the source address included. */
  lemma ForwardingIdRead(pdu: Pdu, src: Mac, stamp: u32, seqId: u16)
    requires Composable(pdu) && pdu.IsInFrame()
    ensures var f := Wire(pdu, src, stamp, seqId);
            |f| >= MIN_FRAME && ReadForwardingId(f) == pdu.ForwardingId()
  {
    WireParts(pdu, src, stamp, seqId);
    if pdu.InTest? {
      InTestBody(pdu, stamp, Tail(pdu, seqId));
    } else {
      InBodies(pdu, stamp, Tail(pdu, seqId));
    }
  }

  /** So it is in any frame that arrives, whoever composed it. */
  lemma ForwardingIdOfBytes(f: seq<u8>)
    requires |f| >= MIN_FRAME && ReadFrame(f).IsInFrame()
    ensures ReadForwardingId(f) == ReadFrame(f).ForwardingId()
  {
  }

  /** A frame has between 60 and 66 bytes, and its buffer never overflows. */
  lemma FrameSize(pdu: Pdu, src: Mac, stamp: u32, seqId: u16)
    requires Composable(pdu)
    ensures MIN_FRAME <= |Wire(pdu, src, stamp, seqId)| <= 66
    ensures |Padded(Payload(pdu, stamp, seqId))| <= MAX_PAYLOAD
  {
  }

  /** A reader that walks the TLVs by their length fields finds the common TLV behind the first
      one exactly when the frame is not a TestMgrNAck, which claims two bytes too few. */
  lemma TlvWalk(pdu: Pdu, src: Mac, stamp: u32, seqId: u16)
    requires Composable(pdu)
    ensures var f := Wire(pdu, src, stamp, seqId);
            |f| >= MIN_FRAME && f[17] <= 24 && (f[18..][f[17]] == 1 <==> !pdu.Nack?)
  {
    WireParts(pdu, src, stamp, seqId);
    CommonAt(pdu, stamp, seqId, 0);
    if pdu.Nack? {
      assert Body(pdu, stamp)[24] == 0;
    }
  }

  /** An interval survives the trip, floored to a millisecond, exactly when it is below 65536 ms. */
  lemma IntervalRoundTrip(us: nat)
    ensures WireMs(us) * 1000 == us - us % 1000 <==> us < 65_536_000
  {
    if us < 65_536_000 {
      assert WireMs(us) == us / 1000;
    } else {
      assert us - us % 1000 >= 65_536_000 > WireMs(us) * 1000;
    }
  }

  /** What the election stores as the priority of a heard manager: the field as it lies in memory. */
  lemma RawPriority(f: seq<u8>)
    requires |f| >= MIN_FRAME
    ensures (f[18] as nat) + f[19] as nat * 0x100 == Swap16(Read16(f[18..], 0))
  {
    assert f[18..][0] == f[18] && f[18..][1] == f[19];
  }
}
