/** Netlink attributes (section 2.2 of RFC 3549): a tree of typed values, aligned to four bytes,
    and the walk over one level of it. Numbers are little-endian. */
module Attributes {
  import opened MrpTypes

  const HEADER := 4

  /** `RTA_ALIGN` and `NLMSG_ALIGN`: the next multiple of four. */
  function Align(n: nat): (r: nat)
    ensures n <= r < n + 4
  {
    if n == 0 then 0 else if n <= 4 then 4 else 4 + Align(n - 4)
  }

  predicate Aligned(n: nat) { Align(n) == n }

  /** The mask by which the macros compute it clears the last two bits of `n + 3`. */
  lemma {:induction false} AlignIsMask(n: nat)
    ensures Align(n) == n + 3 - (n + 3) % 4
  {
    if n > 4 {
      AlignIsMask(n - 4);
    }
  }

  lemma {:induction false} AlignTwice(n: nat)
    ensures Aligned(Align(n))
  {
    if n > 4 {
      AlignTwice(n - 4);
    }
  }

  lemma {:induction false} AlignSum(m: nat, n: nat)
    requires Aligned(m)
    ensures Align(m + n) == m + Align(n)
  {
    if m > 4 {
      AlignSum(m - 4, n);
    }
  }

  lemma {:induction false} AlignMono(m: nat, n: nat)
    requires m <= n
    ensures Align(m) <= Align(n)
  {
    if m > 4 {
      AlignMono(m - 4, n - 4);
    }
  }

  function Le16(s: seq<u8>, at: nat): u16
    requires at + 2 <= |s|
  {
    s[at] as nat + s[at + 1] as nat * 0x100
  }

  // ---- Trees

  datatype Attr = Leaf(kind: u16, data: seq<u8>) | Nest(kind: u16, children: seq<Attr>)

  /** `rta_len` of an attribute, before it is cut to 16 bits. */
  function Length(a: Attr): (n: nat)
    ensures n >= HEADER
    decreases a, 0
  {
    match a
    case Leaf(_, data) => HEADER + |data|
    case Nest(_, children) => HEADER + Total(children)
  }

  /** The room an attribute takes. */
  function Size(a: Attr): (n: nat)
    ensures n >= HEADER && Aligned(n)
    decreases a, 1
  {
    AlignTwice(Length(a));
    Align(Length(a))
  }

  function Total(xs: seq<Attr>): (n: nat)
    ensures Aligned(n)
    decreases xs
  {
    if xs == [] then 0 else AlignSum(Size(xs[0]), Total(xs[1..])); Size(xs[0]) + Total(xs[1..])
  }

  lemma NestSize(a: Attr)
    requires a.Nest?
    ensures Size(a) == HEADER + Total(a.children)
  {
    AlignSum(HEADER, Total(a.children));
  }

  /** Every length of the tree can be stored in 16 bits. */
  predicate Short(a: Attr)
    decreases a
  {
    Length(a) < 0x1_0000 && (a.Nest? ==> forall i :: 0 <= i < |a.children| ==> Short(a.children[i]))
  }

  predicate AllShort(xs: seq<Attr>) { forall i :: 0 <= i < |xs| ==> Short(xs[i]) }

  /** `s` is `a` as it lies in a message; the alignment bytes can be anything. */
  ghost predicate Encodes(s: seq<u8>, a: Attr)
    decreases a, 0
  {
    && |s| == Size(a)
    && Le16(s, 0) == Length(a) && Le16(s, 2) == a.kind
    && match a
       case Leaf(_, data) => s[HEADER..HEADER + |data|] == data
       case Nest(_, children) => EncodesAll(s[HEADER..], children)
  }

  ghost predicate EncodesAll(s: seq<u8>, xs: seq<Attr>)
    decreases xs, 1
  {
    if xs == [] then s == []
    else
      && |s| >= Size(xs[0])
      && Encodes(s[..Size(xs[0])], xs[0])
      && EncodesAll(s[Size(xs[0])..], xs[1..])
  }

  /** Only a tree whose lengths fit in 16 bits has an encoding. */
  lemma {:induction false} EncodesShort(s: seq<u8>, a: Attr)
    requires Encodes(s, a)
    ensures Short(a)
    decreases a, 0
  {
    if a.Nest? {
      EncodesAllShort(s[HEADER..], a.children);
    }
  }

  lemma {:induction false} EncodesAllShort(s: seq<u8>, xs: seq<Attr>)
    requires EncodesAll(s, xs)
    ensures AllShort(xs)
    decreases xs, 1
  {
    if xs != [] {
      EncodesShort(s[..Size(xs[0])], xs[0]);
      EncodesAllShort(s[Size(xs[0])..], xs[1..]);
      assert xs == [xs[0]] + xs[1..];
    }
  }

  lemma LeafWritten(b: seq<u8>, at: nat, end: nat, kind: u16, data: seq<u8>)
    requires HEADER + |data| < 0x1_0000 && at + HEADER + |data| <= at + Size(Leaf(kind, data)) == end <= |b|
    requires Le16(b, at) == HEADER + |data| && Le16(b, at + 2) == kind
    requires forall k :: 0 <= k < |data| ==> b[at + HEADER + k] == data[k]
    ensures Encodes(b[at..end], Leaf(kind, data))
  {
    var t := b[at..end];
    assert t[HEADER..HEADER + |data|] == data;
  }

  /** A nested attribute is complete once its length is patched: `b` is the message before that and
      `c` after it. */
  lemma NestWritten(b: seq<u8>, c: seq<u8>, at: nat, end: nat, a: Attr)
    requires a.Nest? && Short(a) && at + Size(a) == end <= |b| == |c|
    requires Le16(c, at) == end - at && Le16(b, at + 2) == a.kind && forall i :: at + 2 <= i < |b| ==> b[i] == c[i]
    requires EncodesAll(b[at + HEADER..end], a.children)
    ensures Encodes(c[at..end], a)
  {
    var t := c[at..end];
    NestSize(a);
    assert t[HEADER..] == b[at + HEADER..end];
    assert t[0] == c[at] && t[1] == c[at + 1];
    assert t[2] == b[at + 2] && t[3] == b[at + 3];
  }

  /** Two parts of a level lie one behind the other: `b` is the message before the second part was
      written and `c` after it. */
  lemma LevelWritten(b: seq<u8>, c: seq<u8>, at: nat, mid: nat, end: nat, xs: seq<Attr>)
    requires xs != [] && at + Size(xs[0]) == mid <= end <= |c| == |b|
    requires forall i :: 0 <= i < mid ==> b[i] == c[i]
    requires Encodes(b[at..mid], xs[0]) && EncodesAll(c[mid..end], xs[1..])
    ensures EncodesAll(c[at..end], xs)
  {
    assert c[at..end][..mid - at] == b[at..mid];
    assert c[at..end][mid - at..] == c[mid..end];
  }

  lemma SuffixSplit(s: seq<u8>, at: nat, xs: seq<Attr>)
    requires xs != [] && at <= |s| && EncodesAll(s[at..], xs)
    ensures at + Size(xs[0]) <= |s|
    ensures Encodes(s[at..at + Size(xs[0])], xs[0]) && EncodesAll(s[at + Size(xs[0])..], xs[1..])
  {
    var n := Size(xs[0]);
    assert s[at..][..n] == s[at..at + n];
    assert s[at..][n..] == s[at + n..];
  }

  lemma SuffixJoin(s: seq<u8>, at: nat, mid: nat, xs: seq<Attr>)
    requires xs != [] && at + Size(xs[0]) == mid <= |s|
    requires Encodes(s[at..mid], xs[0]) && EncodesAll(s[mid..], xs[1..])
    ensures EncodesAll(s[at..], xs)
  {
    assert s[at..][..mid - at] == s[at..mid];
    assert s[at..][mid - at..] == s[mid..];
  }

  // ---- The walk over one level

  /** `RTA_OK` for the attribute that starts at `at`, all bytes of `s` behind it being left. */
  predicate RtaOk(s: seq<u8>, at: nat) {
    at + HEADER <= |s| && HEADER <= Le16(s, at) <= |s| - at
  }

  /** `RTA_NEXT`. */
  function Next(s: seq<u8>, at: nat): (n: nat)
    requires RtaOk(s, at)
    ensures at + HEADER <= n < |s| + 4
  {
    at + Align(Le16(s, at))
  }

  function Left(s: seq<u8>, at: nat): nat { if at <= |s| then |s| - at else 0 }

  /** The attributes that the walk comes by. */
  function Visits(s: seq<u8>, at: nat): (vs: seq<nat>)
    ensures forall v :: v in vs ==> RtaOk(s, v)
    decreases Left(s, at)
  {
    if RtaOk(s, at) then [at] + Visits(s, Next(s, at)) else []
  }

  /** Where the walk stops; what is left over is `|s| - Stop(s, at)`, which may be negative. */
  function Stop(s: seq<u8>, at: nat): (z: nat)
    ensures !RtaOk(s, z)
    ensures at <= |s| ==> z < |s| + 4
    decreases Left(s, at)
  {
    if RtaOk(s, at) then Stop(s, Next(s, at)) else at
  }

  /** The type of an attribute, without the NLA_F_NESTED flag if `nested`. */
  function Strip(kind: u16, nested: bool): u16 { if nested then kind % 0x8000 else kind }

  function KindAt(s: seq<u8>, at: nat, nested: bool): u16
    requires RtaOk(s, at)
  {
    Strip(Le16(s, at + 2), nested)
  }

  /** `RTA_DATA` and `RTA_PAYLOAD`. */
  function PayloadAt(s: seq<u8>, at: nat): seq<u8>
    requires RtaOk(s, at)
  {
    s[at + HEADER..at + Le16(s, at)]
  }

  /** An entry of the table `tb`: NULL or the attribute at an offset. */
  datatype Slot = Null | At(pos: nat)

  /** The first of the visited attributes with type `k`. */
  function First(s: seq<u8>, vs: seq<nat>, k: nat, nested: bool): (r: Slot)
    requires forall v :: v in vs ==> RtaOk(s, v)
    ensures r.At? ==> r.pos in vs && KindAt(s, r.pos, nested) == k
    decreases vs
  {
    if vs == [] then Null
    else if KindAt(s, vs[0], nested) == k then At(vs[0])
    else First(s, vs[1..], k, nested)
  }

  lemma {:induction false} FirstAppend(s: seq<u8>, vs: seq<nat>, v: nat, k: nat, nested: bool)
    requires (forall u :: u in vs ==> RtaOk(s, u)) && RtaOk(s, v)
    ensures First(s, vs + [v], k, nested) ==
            if First(s, vs, k, nested).At? then First(s, vs, k, nested)
            else if KindAt(s, v, nested) == k then At(v) else Null
    decreases vs
  {
    if vs == [] {
      assert vs + [v] == [v];
    } else {
      FirstAppend(s, vs[1..], v, k, nested);
      assert (vs + [v])[1..] == vs[1..] + [v];
    }
  }

  // ---- Round trip

  /** Attribute `a` lies at offset `at` of `s`, its payload and all. */
  ghost predicate Placed(s: seq<u8>, at: nat, a: Attr) {
    && RtaOk(s, at)
    && Le16(s, at + 2) == a.kind
    && match a
       case Leaf(_, data) => PayloadAt(s, at) == data
       case Nest(_, children) => EncodesAll(PayloadAt(s, at), children)
  }

  lemma EncodedPlaced(s: seq<u8>, at: nat, a: Attr)
    requires at + Size(a) <= |s| && Encodes(s[at..at + Size(a)], a)
    ensures Placed(s, at, a) && Next(s, at) == at + Size(a)
  {
    var t := s[at..at + Size(a)];
    assert t[0] == s[at] && t[1] == s[at + 1] && t[2] == s[at + 2] && t[3] == s[at + 3];
    assert t[HEADER..Length(a)] == PayloadAt(s, at);
    if a.Nest? {
      NestSize(a);
      assert t[HEADER..Length(a)] == t[HEADER..];
    }
  }

  /** The offsets of the attributes of one level. */
  function Positions(at: nat, xs: seq<Attr>): (ps: seq<nat>)
    ensures |ps| == |xs|
    decreases xs
  {
    if xs == [] then [] else [at] + Positions(at + Size(xs[0]), xs[1..])
  }

  lemma {:induction false} LevelVisits(s: seq<u8>, at: nat, xs: seq<Attr>)
    requires at <= |s| && EncodesAll(s[at..], xs)
    ensures Visits(s, at) == Positions(at, xs) && Stop(s, at) == |s|
    decreases xs
  {
    if xs != [] {
      SuffixSplit(s, at, xs);
      EncodedPlaced(s, at, xs[0]);
      LevelVisits(s, at + Size(xs[0]), xs[1..]);
    }
  }

  lemma {:induction false} LevelPlaced(s: seq<u8>, at: nat, xs: seq<Attr>, i: nat)
    requires at <= |s| && EncodesAll(s[at..], xs) && i < |xs|
    ensures Placed(s, Positions(at, xs)[i], xs[i])
    decreases xs
  {
    SuffixSplit(s, at, xs);
    if i == 0 {
      EncodedPlaced(s, at, xs[0]);
    } else {
      LevelPlaced(s, at + Size(xs[0]), xs[1..], i - 1);
    }
  }

  /** The walk comes by every attribute of a written level and leaves nothing over. */
  lemma LevelWalk(s: seq<u8>, at: nat, xs: seq<Attr>)
    requires at <= |s| && EncodesAll(s[at..], xs)
    ensures Visits(s, at) == Positions(at, xs) && Stop(s, at) == |s|
    ensures forall i :: 0 <= i < |xs| ==> Placed(s, Positions(at, xs)[i], xs[i])
  {
    LevelVisits(s, at, xs);
    forall i | 0 <= i < |xs| ensures Placed(s, Positions(at, xs)[i], xs[i]) {
      LevelPlaced(s, at, xs, i);
    }
  }

  /** The first attribute of type `k` in a level. */
  function IndexOf(xs: seq<Attr>, k: nat, nested: bool): (i: nat)
    ensures i <= |xs|
    ensures i < |xs| ==> Strip(xs[i].kind, nested) == k
    ensures forall j :: 0 <= j < i ==> Strip(xs[j].kind, nested) != k
    decreases xs
  {
    if xs == [] || Strip(xs[0].kind, nested) == k then 0 else 1 + IndexOf(xs[1..], k, nested)
  }

  lemma {:induction false} FirstIsIndexOf(s: seq<u8>, at: nat, xs: seq<Attr>, k: nat, nested: bool)
    requires forall i :: 0 <= i < |xs| ==> Placed(s, Positions(at, xs)[i], xs[i])
    ensures (forall v :: v in Positions(at, xs) ==> RtaOk(s, v))
    ensures var i := IndexOf(xs, k, nested);
            First(s, Positions(at, xs), k, nested) == if i == |xs| then Null else At(Positions(at, xs)[i])
    decreases xs
  {
    if xs != [] {
      assert Placed(s, Positions(at, xs)[0], xs[0]);
      var ps := Positions(at + Size(xs[0]), xs[1..]);
      forall i | 0 <= i < |xs[1..]| ensures Placed(s, ps[i], xs[1..][i]) {
        assert Placed(s, Positions(at, xs)[i + 1], xs[i + 1]);
      }
      FirstIsIndexOf(s, at + Size(xs[0]), xs[1..], k, nested);
    }
  }

  /** What parsing a written level for type `k` yields: nothing exactly when no attribute has the
      type, otherwise the first one that has it, with its exact payload or with its children as
      another level; and no byte is left over. */
  lemma LevelRoundTrip(s: seq<u8>, xs: seq<Attr>, k: nat, nested: bool)
    requires EncodesAll(s, xs)
    ensures Stop(s, 0) == |s|
    ensures var i := IndexOf(xs, k, nested);
            match First(s, Visits(s, 0), k, nested)
            case Null => i == |xs|
            case At(p) => i < |xs| && Placed(s, p, xs[i])
  {
    assert s[0..] == s;
    LevelWalk(s, 0, xs);
    FirstIsIndexOf(s, 0, xs, k, nested);
  }

  /** Attributes found by following types down through nested levels. */
  datatype Found<T> = Missing | Found(value: T)

  function Follow(s: seq<u8>, path: seq<nat>, nested: bool): Found<seq<u8>>
    requires path != []
    decreases path
  {
    match First(s, Visits(s, 0), path[0], nested)
    case Null => Missing
    case At(p) => if |path| == 1 then Found(PayloadAt(s, p)) else Follow(PayloadAt(s, p), path[1..], nested)
  }

  /** The same search in the tree; `Through` says that it only descends into nested attributes. */
  function Find(xs: seq<Attr>, path: seq<nat>, nested: bool): Found<Attr>
    requires path != [] && Through(xs, path, nested)
    decreases path
  {
    var i := IndexOf(xs, path[0], nested);
    if i == |xs| then Missing
    else if |path| == 1 then Found(xs[i])
    else Find(xs[i].children, path[1..], nested)
  }

  predicate Through(xs: seq<Attr>, path: seq<nat>, nested: bool)
    decreases path
  {
    var i := if path == [] then |xs| else IndexOf(xs, path[0], nested);
    i < |xs| && |path| > 1 ==> xs[i].Nest? && Through(xs[i].children, path[1..], nested)
  }

  /** Following a path through the bytes of a tree of any depth finds what the tree holds there. */
  lemma {:induction false} PathRoundTrip(s: seq<u8>, xs: seq<Attr>, path: seq<nat>, nested: bool)
    requires EncodesAll(s, xs) && path != [] && Through(xs, path, nested)
    ensures var got := Follow(s, path, nested);
            match Find(xs, path, nested)
            case Missing => got == Missing
            case Found(Leaf(_, data)) => got == Found(data)
            case Found(Nest(_, children)) => got.Found? && EncodesAll(got.value, children)
    decreases path
  {
    LevelRoundTrip(s, xs, path[0], nested);
    var i := IndexOf(xs, path[0], nested);
    if i < |xs| && |path| > 1 {
      var p := First(s, Visits(s, 0), path[0], nested).pos;
      PathRoundTrip(PayloadAt(s, p), xs[i].children, path[1..], nested);
    }
  }

  // ---- Arbitrary bytes

  /** The walk itself looks at no byte outside its input, whatever the input is. */
  lemma WalkInBounds(s: seq<u8>)
    ensures forall v :: v in Visits(s, 0) ==> v + HEADER <= v + Le16(s, v) <= |s|
    ensures -4 < |s| - Stop(s, 0)
  {
  }

  /** What the program says about a remainder: how much is left and the length field that it reads
      where the walk stopped, which is `Missing` if those two bytes are not part of the input. */
  datatype Complaint = Silent | Deficit(left: int, length: Found<u16>)

  function Complain(s: seq<u8>): Complaint {
    var z := Stop(s, 0);
    if z == |s| then Silent
    else Deficit(|s| - z, if z + 2 <= |s| then Found(Le16(s, z)) else Missing)
  }

  /** All bytes that the parser reads, the complaint included, are bytes of the input. */
  predicate ReadsWithin(s: seq<u8>) {
    Complain(s).Deficit? ==> Complain(s).length.Found?
  }

  lemma {:induction false} StopAligned(s: seq<u8>, at: nat)
    requires Aligned(at)
    ensures Aligned(Stop(s, at))
    decreases Left(s, at)
  {
    if RtaOk(s, at) {
      AlignTwice(Le16(s, at));
      AlignSum(at, Align(Le16(s, at)));
      StopAligned(s, Next(s, at));
    }
  }

  lemma {:induction false} StopWithin(s: seq<u8>, at: nat)
    requires Aligned(|s|) && Aligned(at) && at <= |s|
    ensures Stop(s, at) <= |s|
    decreases Left(s, at)
  {
    if RtaOk(s, at) {
      AlignTwice(at + Le16(s, at));
      AlignSum(at, Le16(s, at));
      AlignMono(at + Le16(s, at), |s|);
      StopWithin(s, Next(s, at));
    }
  }

  /** Bytes of a length that is no multiple of four: attributes without payload, then one whose length
      is not aligned, so that the walk steps over the end. */
  function Overrun(n: nat): (s: seq<u8>)
    requires n == 1 || (n > 4 && n % 4 != 0)
    ensures |s| == n
  {
    if n == 1 then [0]
    else if n < 8 then [n, 0, 0, 0] + seq(n - 4, _ => 0)
    else [4, 0, 0, 0] + Overrun(n - 4)
  }

  lemma {:induction false} StopShift(s: seq<u8>, at: nat)
    ensures Stop([4, 0, 0, 0] + s, at + 4) == Stop(s, at) + 4
    decreases Left(s, at)
  {
    var t := [4, 0, 0, 0] + s;
    if at + HEADER <= |s| {
      assert t[at + 4] == s[at] && t[at + 5] == s[at + 1];
      assert Le16(t, at + 4) == Le16(s, at);
    }
    assert RtaOk(t, at + 4) == RtaOk(s, at);
    if RtaOk(s, at) {
      StopShift(s, Next(s, at));
    }
  }

  lemma {:induction false} OverrunReadsOutside(n: nat)
    requires n == 1 || (n > 4 && n % 4 != 0)
    ensures !ReadsWithin(Overrun(n))
  {
    var s := Overrun(n);
    if 4 < n < 8 {
      AlignIsMask(n);
      assert Le16(s, 0) == n;
      assert Next(s, 0) == 8 && Stop(s, 8) == 8;
    } else if n > 1 {
      OverrunReadsOutside(n - 4);
      assert Le16(s, 0) == 4;
      assert Next(s, 0) == 4;
      StopShift(Overrun(n - 4), 0);
    }
  }

  /** Inputs of which lengths a caller may pass: whatever the bytes are, the parser reads within the
      input exactly if the length is a multiple of four, two or three. */
  lemma SafeLengths(n: nat)
    ensures (forall s: seq<u8> :: |s| == n ==> ReadsWithin(s)) <==> n % 4 == 0 || n == 2 || n == 3
  {
    AlignIsMask(n);
    if n % 4 == 0 || n == 2 || n == 3 {
      forall s: seq<u8> | |s| == n ensures ReadsWithin(s) {
        StopAligned(s, 0);
        AlignIsMask(Stop(s, 0));
        if n % 4 == 0 {
          StopWithin(s, 0);
        }
      }
    } else {
      OverrunReadsOutside(n);
    }
  }

  /** Five bytes suffice: the walk steps over the end and the complaint reads behind it. */
  lemma FiveBytesOverrun()
    ensures Stop([5, 0, 0, 0, 0], 0) == 8 && Complain([5, 0, 0, 0, 0]) == Deficit(-3, Missing)
  {
    var s: seq<u8> := [5, 0, 0, 0, 0];
    assert Le16(s, 0) == 5;
    assert Next(s, 0) == 8;
  }

  /** The attributes of a level as the walk sees them. */
  function Leaves(s: seq<u8>, at: nat): seq<Attr>
    decreases Left(s, at)
  {
    if RtaOk(s, at) then [Leaf(Le16(s, at + 2), PayloadAt(s, at))] + Leaves(s, Next(s, at)) else []
  }

  lemma {:induction false} StopMonotone(s: seq<u8>, at: nat)
    ensures at <= Stop(s, at)
    decreases Left(s, at)
  {
    if RtaOk(s, at) {
      StopMonotone(s, Next(s, at));
    }
  }

  lemma LeafAt(s: seq<u8>, at: nat)
    requires RtaOk(s, at) && Next(s, at) <= |s|
    ensures Encodes(s[at..Next(s, at)], Leaf(Le16(s, at + 2), PayloadAt(s, at)))
  {
    var t := s[at..Next(s, at)];
    assert t[0] == s[at] && t[1] == s[at + 1] && t[2] == s[at + 2] && t[3] == s[at + 3];
    assert t[HEADER..Le16(s, at)] == PayloadAt(s, at);
  }

  lemma {:induction false} CleanWalk(s: seq<u8>, at: nat)
    requires at <= |s| && Stop(s, at) == |s|
    ensures EncodesAll(s[at..], Leaves(s, at))
    decreases Left(s, at)
  {
    if RtaOk(s, at) {
      var z := Next(s, at);
      StopMonotone(s, z);
      CleanWalk(s, z);
      LeafAt(s, at);
      assert Leaves(s, at)[1..] == Leaves(s, z);
      SuffixJoin(s, at, z, Leaves(s, at));
    }
  }

  ghost predicate Written(s: seq<u8>) { exists xs :: EncodesAll(s, xs) }

  lemma WrittenBy(s: seq<u8>, xs: seq<Attr>)
    requires EncodesAll(s, xs)
    ensures Written(s)
  {
  }

  /** Bytes leave no remainder exactly when they are some written level. */
  lemma NoRemainderIff(s: seq<u8>)
    ensures Stop(s, 0) == |s| <==> Written(s)
  {
    assert s[0..] == s;
    if Stop(s, 0) == |s| {
      CleanWalk(s, 0);
      WrittenBy(s, Leaves(s, 0));
    }
    if Written(s) {
      var xs :| EncodesAll(s, xs);
      LevelWalk(s, 0, xs);
    }
  }
}
