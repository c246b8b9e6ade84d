/** Writing attributes into a netlink message and parsing them (`libnetlink.c`). */
module NetlinkMessage {
  import opened MrpTypes
  import opened Attributes

  /** A message buffer; `len` is the member `nlmsg_len` of its header. */
  class Message {
    const buf: array<u8>
    var len: nat

    constructor (size: nat, len: nat)
      ensures fresh(buf) && buf.Length == size && this.len == len
    {
      buf := new u8[size](_ => 0);
      this.len := len;
    }

    /** The bytes outside `from..to` are what they were. */
    twostate predicate Outside(from: nat, to: nat)
      reads this, buf
    {
      forall i :: 0 <= i < buf.Length && !(from <= i < to) ==> buf[i] == old(buf[i])
    }

    method Put16(at: nat, x: u16)
      requires at + 2 <= buf.Length
      modifies buf
      ensures buf[at] == x % 0x100 && buf[at + 1] == x / 0x100 && Outside(at, at + 2)
    {
      buf[at] := x % 0x100;
      buf[at + 1] := x / 0x100;
    }

    /** `memcpy`. */
    method Copy(at: nat, data: seq<u8>)
      requires at + |data| <= buf.Length
      modifies buf
      ensures (forall k :: 0 <= k < |data| ==> buf[at + k] == data[k]) && Outside(at, at + |data|)
    {
      for k := 0 to |data|
        invariant (forall j :: 0 <= j < k ==> buf[at + j] == data[j]) && Outside(at, at + k)
      {
        buf[at + k] := data[k];
      }
    }

    /** `addattr_l`: the attribute is appended, or there is no room and nothing changes. Its length
        is stored in 16 bits. */
    method AddAttr(max: nat, kind: u16, data: seq<u8>) returns (ok: bool)
      requires max <= buf.Length
      modifies this`len, buf
      ensures ok <==> old(Align(len)) + Align(HEADER + |data|) <= max
      ensures !ok ==> len == old(len) && buf[..] == old(buf[..])
      ensures ok ==> len == old(Align(len)) + Align(HEADER + |data|) && Outside(old(Align(len)), len)
      ensures ok && HEADER + |data| < 0x1_0000 ==> Encodes(buf[old(Align(len))..len], Leaf(kind, data))
    {
      var n := HEADER + |data|;
      var rta := Align(len);
      if rta + Align(n) > max {
        return false;
      }
      Put16(rta + 2, kind);
      Put16(rta, n % 0x1_0000);
      Copy(rta + HEADER, data);
      len := rta + Align(n);
      if n < 0x1_0000 {
        LeafWritten(buf[..], rta, len, kind, data);
      }
      return true;
    }

    /** `addattr_nest`: an attribute without payload whose length is settled later. Like the
        original, it does not look at the result of `addattr_l`. */
    method AddNest(max: nat, kind: u16) returns (nest: nat)
      requires max <= buf.Length
      modifies this`len, buf
      ensures nest == old(Align(len))
      ensures nest + HEADER > max ==> len == old(len) && buf[..] == old(buf[..])
      ensures nest + HEADER <= max ==> len == nest + HEADER && Outside(nest, len) && Le16(buf[..], nest + 2) == kind
    {
      nest := Align(len);
      var ok := AddAttr(max, kind, []);
      if ok {
        assert buf[nest..len][2] == buf[nest + 2] && buf[nest..len][3] == buf[nest + 3];
      }
    }

    /** `addattr_nest_end`: the length of a nested attribute is patched, in 16 bits. If `addattr_nest` found
        no room, the place may be behind the buffer; then no byte of the buffer changes. */
    method NestEnd(nest: nat) returns (inside: bool)
      requires nest <= Align(len)
      modifies buf
      ensures inside <==> nest + 2 <= buf.Length
      ensures inside ==> Le16(buf[..], nest) == (Align(len) - nest) % 0x1_0000 && Outside(nest, nest + 2)
      ensures !inside ==> buf[..] == old(buf[..])
    {
      if nest + 2 > buf.Length {
        return false;
      }
      Put16(nest, (Align(len) - nest) % 0x1_0000);
      return true;
    }

    /** A nested attribute without children: what is patched is part of the message exactly if there was
        room for the attribute. */
    method EmptyNest(max: nat, kind: u16) returns (nest: nat, inside: bool)
      requires max <= buf.Length
      modifies this`len, buf
      ensures nest == old(Align(len))
      ensures nest + 2 <= len <==> old(Align(len)) + HEADER <= max
      ensures old(Align(len)) + HEADER > max ==> len == old(len) && Outside(nest, nest + 2)
      ensures old(Align(len)) + HEADER <= max ==>
                inside && len <= buf.Length && Encodes(buf[nest..len], Nest(kind, []))
    {
      AlignTwice(len);
      AlignSum(Align(len), HEADER);
      nest := AddNest(max, kind);
      ghost var before := buf[..];
      AlignTwice(nest);
      inside := NestEnd(nest);
      if nest + HEADER <= max {
        NestSize(Nest(kind, []));
        NestWritten(before, buf[..], nest, len, Nest(kind, []));
      }
    }

    /** Writing a tree with the three functions above, as their callers do level by level. */
    method Write(max: nat, a: Attr)
      requires max <= buf.Length && Short(a) && Align(len) + Size(a) <= max
      modifies this`len, buf
      ensures len == old(Align(len)) + Size(a) && Outside(old(Align(len)), len)
      ensures Encodes(buf[old(Align(len))..len], a)
      decreases a, 2
    {
      match a
      case Leaf(kind, data) =>
        var _ := AddAttr(max, kind, data);
        return;
      case Nest(kind, children) =>
        WriteNest(max, kind, children, a);
        return;
    }

    method WriteNest(max: nat, kind: u16, children: seq<Attr>, ghost a: Attr)
      requires a == Nest(kind, children)
      requires max <= buf.Length && Short(a) && Align(len) + Size(a) <= max
      modifies this`len, buf
      ensures len == old(Align(len)) + Size(a) && Outside(old(Align(len)), len)
      ensures Encodes(buf[old(Align(len))..len], a)
      decreases a, 1
    {
      NestSize(a);
      AlignTwice(len);
      var nest := OpenAndFill(max, kind, children, a);
      AlignSum(nest, Size(a));
      ghost var before := buf[..];
      var _ := NestEnd(nest);
      NestWritten(before, buf[..], nest, len, a);
    }

    method OpenAndFill(max: nat, kind: u16, children: seq<Attr>, ghost a: Attr) returns (nest: nat)
      requires a == Nest(kind, children) && AllShort(children)
      requires max <= buf.Length && Align(len) + HEADER + Total(children) <= max
      modifies this`len, buf
      ensures nest == old(Align(len)) && len == nest + HEADER + Total(children) && Outside(nest, len)
      ensures Le16(buf[..], nest + 2) == kind && EncodesAll(buf[nest + HEADER..len], children)
      decreases a, 0
    {
      AlignTwice(len);
      AlignSum(Align(len), HEADER);
      nest := AddNest(max, kind);
      WriteAll(max, children);
    }

    method WriteAll(max: nat, xs: seq<Attr>)
      requires max <= buf.Length && AllShort(xs) && Aligned(len) && len + Total(xs) <= max
      modifies this`len, buf
      ensures len == old(len) + Total(xs) && Outside(old(len), len)
      ensures EncodesAll(buf[old(len)..len], xs)
      decreases xs, 3
    {
      if xs == [] {
        return;
      }
      ghost var start := len;
      AlignSum(len, Size(xs[0]));
      Write(max, xs[0]);
      ghost var mid, before := len, buf[..];
      WriteAll(max, xs[1..]);
      LevelWritten(before, buf[..], start, mid, len, xs);
      return;
    }
  }

  /** Where the pair of `addattr_nest` and `addattr_nest_end` writes: within an aligned bound exactly if
      there was room for the attribute; within any other bound also if it is two or three bytes off. */
  lemma PatchWithin(len: nat, max: nat)
    ensures Aligned(max) ==> (Align(len) + 2 <= max <==> Align(len) + HEADER <= max)
    ensures Align(len) + 2 <= max <==> Align(len) + HEADER <= max || max - Align(len) in {2, 3}
  {
    AlignTwice(len);
    AlignIsMask(Align(len));
    AlignIsMask(max);
  }

  /** The table after the attributes `seen`. */
  ghost predicate Filled(tb: seq<Slot>, s: seq<u8>, seen: seq<nat>, nested: bool) {
    && (forall v :: v in seen ==> RtaOk(s, v))
    && forall k :: 0 <= k < |tb| ==> tb[k] == First(s, seen, k, nested)
  }

  lemma FilledOn(tb: seq<Slot>, s: seq<u8>, seen: seq<nat>, v: nat, nested: bool)
    requires Filled(tb, s, seen, nested) && RtaOk(s, v)
    ensures var kind := KindAt(s, v, nested);
            Filled(if kind < |tb| && tb[kind].Null? then tb[kind := At(v)] else tb, s, seen + [v], nested)
  {
    forall k | 0 <= k < |tb|
      ensures First(s, seen + [v], k, nested) ==
              if tb[k].At? then tb[k] else if KindAt(s, v, nested) == k then At(v) else Null
    {
      FirstAppend(s, seen, v, k, nested);
    }
  }

  lemma VisitOn(s: seq<u8>, seen: seq<nat>, v: nat)
    requires RtaOk(s, v)
    ensures seen + [v] + Visits(s, Next(s, v)) == seen + Visits(s, v)
    ensures Stop(s, Next(s, v)) == Stop(s, v)
  {
  }

  /** The end of both parsers: a remainder is reported with the length field at the place. */
  method Report(s: seq<u8>, rta: nat) returns (c: Complaint)
    requires rta == Stop(s, 0)
    ensures c == Complain(s)
  {
    if |s| - rta == 0 {
      return Silent;
    }
    if rta + 2 <= |s| {
      return Deficit(|s| - rta, Found(Le16(s, rta)));
    }
    return Deficit(|s| - rta, Missing);
  }

  /** `parse_rtattr_flags` over the bytes `s`; `nested` is the flag NLA_F_NESTED. */
  method ParseFlags(tb: array<Slot>, s: seq<u8>, nested: bool) returns (c: Complaint)
    modifies tb
    ensures forall k :: 0 <= k < tb.Length ==> tb[k] == First(s, Visits(s, 0), k, nested)
    ensures c == Complain(s)
  {
    for k := 0 to tb.Length
      invariant forall j :: 0 <= j < k ==> tb[j] == Null
    {
      tb[k] := Null;
    }
    var rta := 0;
    ghost var seen := [];
    while RtaOk(s, rta)
      invariant seen + Visits(s, rta) == Visits(s, 0) && Stop(s, rta) == Stop(s, 0)
      invariant Filled(tb[..], s, seen, nested)
      decreases Left(s, rta)
    {
      FilledOn(tb[..], s, seen, rta, nested);
      VisitOn(s, seen, rta);
      var kind := KindAt(s, rta, nested);
      if kind < tb.Length && tb[kind].Null? {
        tb[kind] := At(rta);
      }
      seen := seen + [rta];
      rta := Next(s, rta);
    }
    assert seen + [] == seen;
    c := Report(s, rta);
  }

  /** `parse_rtattr_one`, which complains only if it found nothing. */
  method ParseOne(kind: u16, s: seq<u8>) returns (r: Slot, c: Complaint)
    ensures r == First(s, Visits(s, 0), kind, false)
    ensures c == if r == Null then Complain(s) else Silent
  {
    var rta := 0;
    while RtaOk(s, rta)
      invariant First(s, Visits(s, rta), kind, false) == First(s, Visits(s, 0), kind, false)
      invariant Stop(s, rta) == Stop(s, 0)
      decreases Left(s, rta)
    {
      if Le16(s, rta + 2) == kind {
        return At(rta), Silent;
      }
      assert Visits(s, rta)[1..] == Visits(s, Next(s, rta));
      rta := Next(s, rta);
    }
    c := Report(s, rta);
    return Null, c;
  }
}
