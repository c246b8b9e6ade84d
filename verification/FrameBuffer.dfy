/** Composing a frame: a zeroed buffer with a cursor (`fb_alloc`, `fb_put`), the writers that fill
    it structure by structure, and the per-instance sequence number. */
module FrameBuffer {
  import opened MrpTypes
  import opened MrpFrames
  import opened MrpNode

  /** `struct frame_buf`. */
  class FrameBuf {
    const start: array<u8>
    var data: nat
    var size: nat

    /** The buffer is written up to the cursor and still zero behind it. */
    ghost predicate Valid()
      reads this, start
    {
      data <= size <= start.Length && forall k :: data <= k < start.Length ==> start[k] == 0
    }

    ghost function Contents(): seq<u8>
      requires Valid()
      reads this, start
    {
      start[..size]
    }

    /** `fb_alloc`. */
    constructor (n: nat)
      ensures Valid() && fresh(start) && start.Length == n && data == size && Contents() == []
    {
      start := new u8[n](_ => 0);
      data, size := 0, 0;
    }

    /** `fb_put`, which trusts its caller that the structure fits. */
    method Put(n: nat) returns (at: nat)
      requires Valid() && data == size && size + n <= start.Length
      modifies this`data, this`size
      ensures Valid() && at == old(data) && data == size == old(size) + n
    {
      at := data;
      data := data + n;
      size := size + n;
    }

    /** Storing into the next member of a structure that was reserved before. */
    method Fill(at: nat, bytes: seq<u8>)
      requires Valid() && at + |bytes| <= data
      modifies start
      ensures Valid()
      ensures start[..at + |bytes|] == old(start[..at]) + bytes
    {
      for k := 0 to |bytes|
        invariant Valid() && start[..at + k] == old(start[..at]) + bytes[..k]
      {
        start[at + k] := bytes[k];
      }
      assert bytes[..|bytes|] == bytes;
    }

    /** A structure with one member. */
    method Append(bytes: seq<u8>)
      requires Valid() && data == size && size + |bytes| <= start.Length
      modifies this`data, this`size, start
      ensures Valid() && data == size
      ensures Contents() == old(Contents()) + bytes
    {
      var at := Put(|bytes|);
      Fill(at, bytes);
    }

    /** The padding of `mrp_send`: the size grows over bytes that are still zero. */
    method Pad()
      requires Valid() && data == size && size + Missing(size) <= start.Length
      modifies this`size
      ensures Valid() && data == old(data)
      ensures Contents() == Padded(old(Contents()))
    {
      if ETH_HEADER + size < MIN_FRAME {
        size := size + (MIN_FRAME - size - ETH_HEADER);
      }
      assert start[..size] == start[..data] + Zeros(Missing(data));
    }
  }

  /** The writers of an instance and the member of `struct mrp` that only they use. */
  class Composer {
    var seqId: u16

    constructor ()
      ensures seqId == 0
    {
      seqId := 0;
    }

    method NextSeq() returns (id: u16)
      modifies this
      ensures id == seqId == Inc16(old(seqId))
    {
      seqId := Inc16(seqId);
      id := seqId;
    }

    method PutRingTest(fb: FrameBuf, pdu: Pdu, stamp: u32)
      requires pdu.Test?
      requires fb.Valid() && fb.data == fb.size && fb.size + 18 <= fb.start.Length
      modifies fb`data, fb`size, fb.start
      ensures fb.Valid() && fb.data == fb.size
      ensures fb.Contents() == old(fb.Contents()) + Body(pdu, stamp)
    {
      ghost var c := fb.Contents();
      var hdr := fb.Put(18);
      fb.Fill(hdr, Bytes16(pdu.prio));
      fb.Fill(hdr + 2, pdu.sa);
      fb.Fill(hdr + 8, Bytes16(RoleCode(pdu.portRole)));
      fb.Fill(hdr + 10, Bytes16(StateCode(pdu.closed)));
      fb.Fill(hdr + 12, Bytes16(pdu.transitions));
      fb.Fill(hdr + 14, Bytes32(stamp));
      Gather(c, Bytes16(pdu.prio), pdu.sa, Bytes16(RoleCode(pdu.portRole)), Bytes16(StateCode(pdu.closed)),
             Bytes16(pdu.transitions), Bytes32(stamp));
    }

    method PutRingTopo(fb: FrameBuf, pdu: Pdu, ghost stamp: u32)
      requires pdu.Topo?
      requires fb.Valid() && fb.data == fb.size && fb.size + 10 <= fb.start.Length
      modifies fb`data, fb`size, fb.start
      ensures fb.Valid() && fb.data == fb.size
      ensures fb.Contents() == old(fb.Contents()) + Body(pdu, stamp)
    {
      ghost var c := fb.Contents();
      var hdr := fb.Put(10);
      fb.Fill(hdr, Bytes16(pdu.prio));
      fb.Fill(hdr + 2, pdu.sa);
      fb.Fill(hdr + 8, Bytes16(pdu.interval));
      Gather(c, Bytes16(pdu.prio), pdu.sa, Bytes16(pdu.interval), [], [], []);
    }

    method PutRingLink(fb: FrameBuf, pdu: Pdu, ghost stamp: u32)
      requires pdu.Link?
      requires fb.Valid() && fb.data == fb.size && fb.size + 12 <= fb.start.Length
      modifies fb`data, fb`size, fb.start
      ensures fb.Valid() && fb.data == fb.size
      ensures fb.Contents() == old(fb.Contents()) + Body(pdu, stamp)
    {
      ghost var c := fb.Contents();
      var hdr := fb.Put(12);
      fb.Fill(hdr, pdu.sa);
      fb.Fill(hdr + 6, Bytes16(RoleCode(pdu.portRole)));
      fb.Fill(hdr + 8, Bytes16(pdu.interval));
      fb.Fill(hdr + 10, Bytes16(pdu.blocked));
      Gather(c, pdu.sa, Bytes16(RoleCode(pdu.portRole)), Bytes16(pdu.interval), Bytes16(pdu.blocked), [], []);
    }

    method PutInTest(fb: FrameBuf, pdu: Pdu, stamp: u32)
      requires pdu.InTest?
      requires fb.Valid() && fb.data == fb.size && fb.size + 18 <= fb.start.Length
      modifies fb`data, fb`size, fb.start
      ensures fb.Valid() && fb.data == fb.size
      ensures fb.Contents() == old(fb.Contents()) + Body(pdu, stamp)
    {
      ghost var c := fb.Contents();
      var hdr := fb.Put(18);
      fb.Fill(hdr, Bytes16(pdu.id));
      fb.Fill(hdr + 2, pdu.sa);
      fb.Fill(hdr + 8, Bytes16(RoleCode(pdu.portRole)));
      fb.Fill(hdr + 10, Bytes16(StateCode(pdu.closed)));
      fb.Fill(hdr + 12, Bytes16(pdu.transitions));
      fb.Fill(hdr + 14, Bytes32(stamp));
      Gather(c, Bytes16(pdu.id), pdu.sa, Bytes16(RoleCode(pdu.portRole)), Bytes16(StateCode(pdu.closed)),
             Bytes16(pdu.transitions), Bytes32(stamp));
    }

    method PutInTopo(fb: FrameBuf, pdu: Pdu, ghost stamp: u32)
      requires pdu.InTopo?
      requires fb.Valid() && fb.data == fb.size && fb.size + 10 <= fb.start.Length
      modifies fb`data, fb`size, fb.start
      ensures fb.Valid() && fb.data == fb.size
      ensures fb.Contents() == old(fb.Contents()) + Body(pdu, stamp)
    {
      ghost var c := fb.Contents();
      var hdr := fb.Put(10);
      fb.Fill(hdr, pdu.sa);
      fb.Fill(hdr + 6, Bytes16(pdu.id));
      fb.Fill(hdr + 8, Bytes16(pdu.interval));
      Gather(c, pdu.sa, Bytes16(pdu.id), Bytes16(pdu.interval), [], [], []);
    }

    method PutInLink(fb: FrameBuf, pdu: Pdu, ghost stamp: u32)
      requires pdu.InLink?
      requires fb.Valid() && fb.data == fb.size && fb.size + 12 <= fb.start.Length
      modifies fb`data, fb`size, fb.start
      ensures fb.Valid() && fb.data == fb.size
      ensures fb.Contents() == old(fb.Contents()) + Body(pdu, stamp)
    {
      ghost var c := fb.Contents();
      var hdr := fb.Put(12);
      fb.Fill(hdr, pdu.sa);
      fb.Fill(hdr + 6, Bytes16(RoleCode(pdu.portRole)));
      fb.Fill(hdr + 8, Bytes16(pdu.id));
      fb.Fill(hdr + 10, Bytes16(pdu.interval));
      Gather(c, pdu.sa, Bytes16(RoleCode(pdu.portRole)), Bytes16(pdu.id), Bytes16(pdu.interval), [], []);
    }

    method PutInLinkStatus(fb: FrameBuf, pdu: Pdu, ghost stamp: u32)
      requires pdu.InLinkStatus?
      requires fb.Valid() && fb.data == fb.size && fb.size + 10 <= fb.start.Length
      modifies fb`data, fb`size, fb.start
      ensures fb.Valid() && fb.data == fb.size
      ensures fb.Contents() == old(fb.Contents()) + Body(pdu, stamp)
    {
      ghost var c := fb.Contents();
      var hdr := fb.Put(10);
      fb.Fill(hdr, pdu.sa);
      fb.Fill(hdr + 6, Bytes16(RoleCode(pdu.portRole)));
      fb.Fill(hdr + 8, Bytes16(pdu.id));
      Gather(c, pdu.sa, Bytes16(RoleCode(pdu.portRole)), Bytes16(pdu.id), [], [], []);
    }

    method PutOption(fb: FrameBuf, kind: u8, prio: u16, sa: Mac, otherPrio: u16, otherSa: Mac)
      requires fb.Valid() && fb.data == fb.size && fb.size + 24 <= fb.start.Length
      modifies fb`data, fb`size, fb.start
      ensures fb.Valid() && fb.data == fb.size
      ensures fb.Contents() == old(fb.Contents()) + Option(kind, prio, sa, otherPrio, otherSa)
    {
      ghost var c := fb.Contents();
      var host := Bytes16(prio) + sa + Bytes16(otherPrio) + otherSa;
      fb.Append(Zeros(3));
      fb.Append(Zeros(3));
      fb.Append([kind, 18]);
      fb.Append(host);
      Regroup(c, Zeros(3), Zeros(3), [kind, 18], host);
    }

    /** The one structure of a frame that is no option. */
    method PutHeader(fb: FrameBuf, pdu: Pdu, stamp: u32)
      requires Composable(pdu) && !pdu.IsOption()
      requires fb.Valid() && fb.data == fb.size && fb.size + BodyLength(pdu) <= fb.start.Length
      modifies fb`data, fb`size, fb.start
      ensures fb.Valid() && fb.data == fb.size
      ensures fb.Contents() == old(fb.Contents()) + Body(pdu, stamp)
    {
      if pdu.Test? {
        PutRingTest(fb, pdu, stamp);
      } else if pdu.Topo? {
        PutRingTopo(fb, pdu, stamp);
      } else if pdu.Link? {
        PutRingLink(fb, pdu, stamp);
      } else if pdu.InTest? {
        PutInTest(fb, pdu, stamp);
      } else if pdu.InTopo? {
        PutInTopo(fb, pdu, stamp);
      } else if pdu.InLink? {
        PutInLink(fb, pdu, stamp);
      } else {
        PutInLinkStatus(fb, pdu, stamp);
      }
    }

    /** The structures behind the first TLV header. */
    method PutBody(fb: FrameBuf, pdu: Pdu, stamp: u32)
      requires Composable(pdu)
      requires fb.Valid() && fb.data == fb.size && fb.size + BodyLength(pdu) <= fb.start.Length
      modifies fb`data, fb`size, fb.start
      ensures fb.Valid() && fb.data == fb.size
      ensures fb.Contents() == old(fb.Contents()) + Body(pdu, stamp)
    {
      if pdu.Nack? {
        PutOption(fb, 1, pdu.prio, pdu.sa, pdu.otherPrio, pdu.otherSa);
        fb.Append(Zeros(2));
        return;
      }
      if pdu.Propagate? {
        PutOption(fb, 2, pdu.prio, pdu.sa, pdu.otherPrio, pdu.otherSa);
        return;
      }
      PutHeader(fb, pdu, stamp);
      return;
    }

    /** The version and the first TLV. */
    method PutHead(fb: FrameBuf, pdu: Pdu, stamp: u32)
      requires Composable(pdu)
      requires fb.Valid() && fb.data == fb.size == 0 && fb.start.Length == MAX_PAYLOAD
      modifies fb`data, fb`size, fb.start
      ensures fb.Valid() && fb.data == fb.size <= 30
      ensures fb.Contents() == Head(pdu) + Body(pdu, stamp)
    {
      fb.Append(Bytes16(1));
      fb.Append([TlvType(pdu), TlvLength(pdu)]);
      assert fb.Contents() == Head(pdu);
      PutBody(fb, pdu, stamp);
    }

    /** The common TLV and the end TLV. */
    method PutCommon(fb: FrameBuf)
      requires fb.Valid() && fb.data == fb.size && fb.size + 22 <= fb.start.Length
      modifies this, fb`data, fb`size, fb.start
      ensures seqId == Inc16(old(seqId))
      ensures fb.Valid() && fb.data == fb.size
      ensures fb.Contents() == old(fb.Contents()) + Common(seqId)
    {
      ghost var c := fb.Contents();
      fb.Append([1, 18]);
      var id := NextSeq();
      fb.Append(Bytes16(id) + Domain());
      fb.Append([0, 0]);
      Regroup(c, [], [1, 18], Bytes16(id) + Domain(), [0, 0]);
    }

    /** The part that all `mrp_send_*` functions share up to the Ethernet header. */
    method Compose(pdu: Pdu, stamp: u32) returns (fb: FrameBuf)
      requires Composable(pdu)
      modifies this
      ensures seqId == Inc16(old(seqId))
      ensures fresh(fb) && fresh(fb.start) && fb.start.Length == MAX_PAYLOAD
      ensures fb.Valid() && fb.data == fb.size && fb.Contents() == Payload(pdu, stamp, seqId)
    {
      fb := new FrameBuf(MAX_PAYLOAD);
      PutHead(fb, pdu, stamp);
      PutCommon(fb);
    }

    /** `mrp_send_*`: what is handed to `packet_send` if the port is up. */
    method Send(pdu: Pdu, src: Mac, stamp: u32) returns (frame: seq<u8>)
      requires Composable(pdu)
      modifies this
      ensures seqId == Inc16(old(seqId))
      ensures frame == Wire(pdu, src, stamp, seqId)
    {
      var fb := Compose(pdu, stamp);
      fb.Pad();
      frame := EthHeader(Destination(pdu), src) + fb.start[..fb.size];
    }

    /** Frame after frame, as the handlers send them. */
    method SendAll(ds: seq<Draft>) returns (fs: seq<seq<u8>>)
      requires forall d :: d in ds ==> Composable(d.pdu)
      modifies this
      ensures fs == Composed(old(seqId), ds)
    {
      fs := [];
      ghost var last := seqId;
      for k := 0 to |ds|
        invariant seqId == if k == 0 then last else Ids(last, |ds|)[k - 1]
        invariant Begun(fs, last, ds, k)
      {
        IdsNext(last, |ds|, k);
        var f := Send(ds[k].pdu, ds[k].src, ds[k].stamp);
        BegunOn(fs, last, ds, k, f);
        fs := fs + [f];
      }
    }
  }

  /** Members stored one behind the other make up the structure. */
  lemma Gather(c: seq<u8>, m0: seq<u8>, m1: seq<u8>, m2: seq<u8>, m3: seq<u8>, m4: seq<u8>, m5: seq<u8>)
    ensures c + m0 + m1 + m2 == c + (m0 + m1 + m2)
    ensures c + m0 + m1 + m2 + m3 == c + (m0 + m1 + m2 + m3)
    ensures c + m0 + m1 + m2 + m3 + m4 + m5 == c + (m0 + m1 + m2 + m3 + m4 + m5)
  {
  }

  lemma Regroup(c: seq<u8>, x: seq<u8>, y: seq<u8>, z: seq<u8>, w: seq<u8>)
    ensures c + x + y + z + w == c + (x + y + z + w)
    ensures x == [] ==> c + y + z + w == c + (y + z + w)
  {
    assert c + x + y + z + w == c + (x + y + z + w);
    assert c + y + z + w == c + (y + z + w);
  }

  // ---- Sequence numbers over a whole run

  /** A frame that is about to be composed. */
  datatype Draft = Draft(pdu: Pdu, src: Mac, stamp: u32)

  /** The next `n` sequence numbers after `last`. */
  function Ids(last: u16, n: nat): (r: seq<u16>)
    ensures |r| == n
    decreases n
  {
    if n == 0 then [] else [Inc16(last)] + Ids(Inc16(last), n - 1)
  }

  /** Each number follows the one before it. */
  lemma {:induction false} IdsNext(last: u16, n: nat, k: nat)
    requires k < n
    ensures Ids(last, n)[k] == Inc16(if k == 0 then last else Ids(last, n)[k - 1])
    decreases n
  {
    if k > 0 {
      IdsNext(Inc16(last), n - 1, k - 1);
    }
  }

  lemma ModStep(last: u16, k: nat)
    requires k > 0
    ensures (Inc16(last) + k) % 0x1_0000 == (last + 1 + k) % 0x1_0000
  {
  }

  lemma {:induction false} IdsAt(last: u16, n: nat, k: nat)
    requires k < n
    ensures Ids(last, n)[k] == (last + 1 + k) % 0x1_0000
    decreases n
  {
    if k > 0 {
      IdsAt(Inc16(last), n - 1, k - 1);
      ModStep(last, k);
      assert Ids(last, n)[k] == Ids(Inc16(last), n - 1)[k - 1];
    }
  }

  lemma SameResidue(a: nat, i: nat, j: nat)
    requires i <= j
    ensures (a + i) % 0x1_0000 == (a + j) % 0x1_0000 <==> (j - i) % 0x1_0000 == 0
  {
    assert a + j == a + i + (j - i);
  }

  lemma IdsRepeat(last: u16, n: nat, i: nat, j: nat)
    requires i <= j < n
    ensures Ids(last, n)[i] == Ids(last, n)[j] <==> (j - i) % 0x1_0000 == 0
  {
    IdsAt(last, n, i);
    IdsAt(last, n, j);
    SameResidue(last + 1, i, j);
  }

  /** The frames composed one after the other by an instance whose last sequence number was `last`. */
  function Composed(last: u16, ds: seq<Draft>): (fs: seq<seq<u8>>)
    requires forall d :: d in ds ==> Composable(d.pdu)
    ensures |fs| == |ds|
  {
    seq(|ds|, k requires 0 <= k < |ds| => Wire(ds[k].pdu, ds[k].src, ds[k].stamp, Ids(last, |ds|)[k]))
  }

  /** `fs` are the first `k` of them. */
  ghost predicate Begun(fs: seq<seq<u8>>, last: u16, ds: seq<Draft>, k: nat)
    requires forall d :: d in ds ==> Composable(d.pdu)
  {
    k <= |ds| && fs == Composed(last, ds)[..k]
  }

  lemma PrefixOn(all: seq<seq<u8>>, fs: seq<seq<u8>>, k: nat, f: seq<u8>)
    requires k < |all| && fs == all[..k] && f == all[k]
    ensures fs + [f] == all[..k + 1]
  {
  }

  lemma BegunOn(fs: seq<seq<u8>>, last: u16, ds: seq<Draft>, k: nat, f: seq<u8>)
    requires (forall d :: d in ds ==> Composable(d.pdu)) && k < |ds| && ds[k] in ds && Begun(fs, last, ds, k)
    requires f == Wire(ds[k].pdu, ds[k].src, ds[k].stamp, Ids(last, |ds|)[k])
    ensures Begun(fs + [f], last, ds, k + 1)
  {
    assert Composed(last, ds)[k] == f;
    PrefixOn(Composed(last, ds), fs, k, f);
  }

  /** Frame `k` of a run is read back with its fields and the `k`-th sequence number. */
  lemma ComposedReads(last: u16, ds: seq<Draft>, k: nat)
    requires forall d :: d in ds ==> Composable(d.pdu)
    requires k < |ds|
    ensures var f := Composed(last, ds)[k];
            |f| >= MIN_FRAME && ReadFrame(f) == ds[k].pdu && ReadSeqId(f) == Ids(last, |ds|)[k]
  {
    FrameRoundTrip(ds[k].pdu, ds[k].src, ds[k].stamp, Ids(last, |ds|)[k]);
  }

  /** Two composed frames carry the same sequence number exactly when a multiple of 65536 lies
      between them; in particular any 65536 consecutive frames are told apart. */
  lemma SeqIdsRepeat(last: u16, ds: seq<Draft>, i: nat, j: nat)
    requires forall d :: d in ds ==> Composable(d.pdu)
    requires i <= j < |ds|
    ensures var f, g := Composed(last, ds)[i], Composed(last, ds)[j];
            && |f| >= MIN_FRAME && |g| >= MIN_FRAME
            && ReadFrame(f) == ds[i].pdu && ReadFrame(g) == ds[j].pdu
            && (ReadSeqId(f) == ReadSeqId(g) <==> (j - i) % 0x1_0000 == 0)
  {
    ComposedReads(last, ds, i);
    ComposedReads(last, ds, j);
    IdsRepeat(last, |ds|, i, j);
  }

  // ---- Frames and the machines

  predicate AllComposable(os: seq<Output>) {
    forall o :: o in os && o.Sent? ==> Composable(o.pdu)
  }

  lemma RingLinkComposable(n: Node, x: RingPort, up: bool)
    ensures AllComposable(n.RingLinkOut(x, up))
  {
  }

  lemma InLinkComposable(n: Node, up: bool)
    ensures AllComposable(n.InPortLinkOut(up))
  {
  }

  lemma ExpireComposable(n: Node, t: TimerId)
    ensures AllComposable(n.ExpireOut(t))
  {
  }

  lemma LinkFrameComposable(n: Node, up: bool)
    ensures AllComposable(n.RecvLinkOut(up))
  {
  }

  lemma RingFrameComposable(n: Node, f: Pdu)
    requires f.IsRingFrame()
    ensures AllComposable(n.ProcessOut(f))
  {
    if f.Link? {
      LinkFrameComposable(n, f.up);
    }
  }

  lemma InFrameComposable(n: Node, f: Pdu)
    requires !f.IsRingFrame()
    ensures AllComposable(n.ProcessOut(f))
  {
  }

  lemma ReceiveComposable(n: Node, at: PortRef, f: Pdu)
    ensures AllComposable(n.ReceiveOut(at, f))
  {
    if f.IsRingFrame() {
      RingFrameComposable(n, f);
    } else {
      InFrameComposable(n, f);
    }
  }

  /** Whatever a machine sends, some writer composes. */
  lemma SentComposable(n: Node, e: Event)
    ensures AllComposable(n.Out(e))
  {
    match e {
      case LinkChange(OnRing(x), up) => RingLinkComposable(n, x, up);
      case LinkChange(OnInter, up) => InLinkComposable(n, up);
      case CfmChange(defect) => InLinkComposable(n, !defect);
      case Receive(at, f) => ReceiveComposable(n, at, f);
      case Expire(t) => ExpireComposable(n, t);
    }
  }

  /** What one instance sends, another instance that gets the bytes takes up as the very same frame. */
  lemma Transported(n: Node, e: Event, o: Output, src: Mac, stamp: u32, seqId: u16)
    requires o in n.Out(e) && o.Sent?
    ensures Composable(o.pdu)
    ensures var f := Wire(o.pdu, src, stamp, seqId); |f| >= MIN_FRAME && ReadFrame(f) == o.pdu
  {
    SentComposable(n, e);
    FrameRoundTrip(o.pdu, src, stamp, seqId);
  }
}
