/** The pickle format: encoders that write in front of what follows, decoders that
    return what is left, and the round trip. */
module Codec {
  import opened Base
  import opened Model

  // ------------------------------------------------------------------- words

  /** w bytes, least significant first. */
  function LE(n: nat, w: nat): (b: seq<byte>)
    ensures |b| == w
  {
    if w == 0 then [] else [n % 256] + LE(n / 256, w - 1)
  }

  function UnLE(b: seq<byte>): nat {
    if b == [] then 0 else b[0] + 256 * UnLE(b[1..])
  }

  function Pow256(w: nat): nat {
    if w == 0 then 1 else 256 * Pow256(w - 1)
  }

  lemma {:induction false} WordRound(n: nat, w: nat)
    requires n < Pow256(w)
    ensures UnLE(LE(n, w)) == n
  {
    if w > 0 {
      WordRound(n / 256, w - 1);
      assert LE(n, w)[1..] == LE(n / 256, w - 1);
    }
  }

  lemma {:induction false} Widths()
    ensures Pow256(8) == 0x1_0000_0000_0000_0000 && Pow256(4) == 0x1_0000_0000
  {
  }

  // ----------------------------------------------------------------- parsing

  datatype Parsed<+T> = Bad | Ok(value: T, rest: seq<byte>)

  function Take(bs: seq<byte>, n: nat): Parsed<seq<byte>> {
    if |bs| < n then Bad else Ok(bs[..n], bs[n..])
  }

  function Word(bs: seq<byte>, w: nat): Parsed<nat> {
    if |bs| < w then Bad else Ok(UnLE(bs[..w]), bs[w..])
  }

  lemma {:induction false} TakeRound(b: seq<byte>, rest: seq<byte>)
    ensures Take(b + rest, |b|) == Ok(b, rest)
  {
  }

  lemma {:induction false} Word8(n: nat, rest: seq<byte>)
    requires n < 0x1_0000_0000_0000_0000
    ensures Word(LE(n, 8) + rest, 8) == Ok(n, rest)
  {
    Widths();
    WordRound(n, 8);
    assert (LE(n, 8) + rest)[..8] == LE(n, 8);
  }

  lemma {:induction false} Word4(n: nat, rest: seq<byte>)
    requires n < 0x1_0000_0000
    ensures Word(LE(n, 4) + rest, 4) == Ok(n, rest)
  {
    Widths();
    WordRound(n, 4);
    assert (LE(n, 4) + rest)[..4] == LE(n, 4);
  }

  /** Values that fit size_t and the other eight-byte fields. */
  predicate Fits8(n: nat) { n < 0x1_0000_0000_0000_0000 }

  // ------------------------------------------------------- extended attributes

  /** A length and the bytes. */
  function EncText(t: seq<byte>, rest: seq<byte>): seq<byte> {
    LE(|t|, 8) + (t + rest)
  }

  function DecText(bs: seq<byte>): (r: Parsed<seq<byte>>)
    ensures r.Ok? ==> |r.rest| <= |bs|
  {
    var n := Word(bs, 8);
    if n.Bad? then Bad else Take(n.rest, n.value)
  }

  lemma {:induction false} TextRound(t: seq<byte>, rest: seq<byte>)
    requires Fits8(|t|)
    ensures DecText(EncText(t, rest)) == Ok(t, rest)
  {
    Word8(|t|, t + rest);
    TakeRound(t, rest);
  }

  /** std::string order, the order of std::map. */
  predicate Less(a: seq<byte>, b: seq<byte>) {
    if b == [] then false
    else if a == [] then true
    else if a[0] != b[0] then a[0] < b[0]
    else Less(a[1..], b[1..])
  }

  lemma {:induction false} LessIsStrict(a: seq<byte>, b: seq<byte>)
    ensures Less(a, b) ==> a != b && !Less(b, a)
  {
    if a != [] && b != [] && a[0] == b[0] {
      LessIsStrict(a[1..], b[1..]);
    }
  }

  /** std::map::insert on the sorted records: an existing key is left alone. */
  function Insert(xs: seq<XAttr>, x: XAttr): seq<XAttr> {
    if xs == [] then [x]
    else if xs[0].key == x.key then xs
    else if Less(x.key, xs[0].key) then [x] + xs
    else [xs[0]] + Insert(xs[1..], x)
  }

  ghost predicate Ordered(xs: seq<XAttr>) {
    forall i, j :: 0 <= i < j < |xs| ==> Less(xs[i].key, xs[j].key)
  }

  lemma {:induction false} InsertLast(xs: seq<XAttr>, x: XAttr)
    requires forall i :: 0 <= i < |xs| ==> Less(xs[i].key, x.key)
    ensures Insert(xs, x) == xs + [x]
  {
    if xs != [] {
      LessIsStrict(xs[0].key, x.key);
      InsertLast(xs[1..], x);
    }
  }

  function EncXAttrs(xs: seq<XAttr>, rest: seq<byte>): seq<byte> {
    if xs == [] then rest else EncText(xs[0].key, EncText(xs[0].val, EncXAttrs(xs[1..], rest)))
  }

  function DecXAttrs(n: nat, acc: seq<XAttr>, bs: seq<byte>): (r: Parsed<seq<XAttr>>)
    ensures r.Ok? ==> |r.rest| <= |bs|
  {
    if n == 0 then Ok(acc, bs) else
    var k := DecText(bs);
    if k.Bad? then Bad else
    var v := DecText(k.rest);
    if v.Bad? then Bad else DecXAttrs(n - 1, Insert(acc, XAttr(k.value, v.value)), v.rest)
  }

  ghost predicate XAttrsFit(xs: seq<XAttr>) {
    Fits8(|xs|) && Ordered(xs) && forall i :: 0 <= i < |xs| ==> Fits8(|xs[i].key|) && Fits8(|xs[i].val|)
  }

  lemma {:induction false} XAttrsRound(acc: seq<XAttr>, xs: seq<XAttr>, rest: seq<byte>)
    requires XAttrsFit(acc + xs)
    ensures DecXAttrs(|xs|, acc, EncXAttrs(xs, rest)) == Ok(acc + xs, rest)
    decreases |xs|
  {
    hide EncText, DecText, Insert, XAttrsFit;
    if xs == [] {
      assert acc + xs == acc;
    } else {
      var x, more := xs[0], EncXAttrs(xs[1..], rest);
      NextXAttr(acc, xs);
      TextRound(x.key, EncText(x.val, more));
      TextRound(x.val, more);
      XAttrsRound(acc + [x], xs[1..], rest);
    }
  }

  lemma {:induction false} NextXAttr(acc: seq<XAttr>, xs: seq<XAttr>)
    requires XAttrsFit(acc + xs) && xs != []
    ensures Fits8(|xs[0].key|) && Fits8(|xs[0].val|)
    ensures Insert(acc, xs[0]) == acc + [xs[0]] && acc + [xs[0]] + xs[1..] == acc + xs
    ensures XAttrsFit(acc + [xs[0]] + xs[1..])
  {
    hide Less, Insert;
    assert (acc + xs)[|acc|] == xs[0];
    forall i | 0 <= i < |acc| ensures Less(acc[i].key, xs[0].key) {
      assert (acc + xs)[i] == acc[i];
    }
    InsertLast(acc, xs[0]);
    assert acc + [xs[0]] + xs[1..] == acc + xs;
  }

  // ----------------------------------------------------------- directory entries

  function EncEntries(es: seq<Entry>, rest: seq<byte>): seq<byte> {
    if es == [] then rest else LE(es[0].ino, 8) + EncText(es[0].name, EncEntries(es[1..], rest))
  }

  function DecEntries(n: nat, bs: seq<byte>): (r: Parsed<seq<Entry>>)
    ensures r.Ok? ==> |r.value| == n
  {
    if n == 0 then Ok([], bs) else
    var ino := Word(bs, 8);
    if ino.Bad? then Bad else
    var name := DecText(ino.rest);
    if name.Bad? then Bad else
    var more := DecEntries(n - 1, name.rest);
    if more.Bad? then Bad else Ok([Entry(name.value, ino.value)] + more.value, more.rest)
  }

  ghost predicate EntriesFit(es: seq<Entry>) {
    forall i :: 0 <= i < |es| ==> Fits8(es[i].ino) && Fits8(|es[i].name|)
  }

  lemma {:induction false} EntriesRound(es: seq<Entry>, rest: seq<byte>)
    requires EntriesFit(es)
    ensures DecEntries(|es|, EncEntries(es, rest)) == Ok(es, rest)
  {
    hide LE, Word, EncText, DecText;
    if es != [] {
      var more := EncEntries(es[1..], rest);
      Word8(es[0].ino, EncText(es[0].name, more));
      TextRound(es[0].name, more);
      EntriesRound(es[1..], rest);
      assert [Entry(es[0].name, es[0].ino)] + es[1..] == es;
    }
  }

  // -------------------------------------------------------------------- inodes

  /** Bytes of fuse_entry_param besides the five modelled fields (176 in all). */
  const META: nat := 140

  function EncHead(h: Head, rest: seq<byte>): seq<byte> {
    [if h.marked then 1 else 0] +
    (LE(h.nlookup, 8) + (LE(h.ino, 8) + (LE(h.nlink, 8) + (LE(h.mode, 4) + (LE(h.size, 8) + (LE(h.blocks, 8) +
    (h.meta + (LE(|h.xattrs|, 8) + EncXAttrs(h.xattrs, rest)))))))))
  }

  function DecHead(bs: seq<byte>): Parsed<Head> {
    var marked := Take(bs, 1);
    if marked.Bad? then Bad else
    var nlookup := Word(marked.rest, 8);
    if nlookup.Bad? then Bad else
    var ino := Word(nlookup.rest, 8);
    if ino.Bad? then Bad else
    var nlink := Word(ino.rest, 8);
    if nlink.Bad? then Bad else
    var mode := Word(nlink.rest, 4);
    if mode.Bad? then Bad else
    var size := Word(mode.rest, 8);
    if size.Bad? then Bad else
    var blocks := Word(size.rest, 8);
    if blocks.Bad? then Bad else
    var meta := Take(blocks.rest, META);
    if meta.Bad? then Bad else
    var count := Word(meta.rest, 8);
    if count.Bad? then Bad else
    var xs := DecXAttrs(count.value, [], count.rest);
    if xs.Bad? then Bad
    else Ok(Head(ino.value, mode.value, Wrap(nlink.value), size.value, blocks.value, Wrap(nlookup.value),
                 marked.value[0] != 0, meta.value, xs.value), xs.rest)
  }

  ghost predicate HeadFits(h: Head) {
    && Fits8(h.ino) && h.mode < 0x1_0000_0000 && Fits8(h.size) && Fits8(h.blocks)
    && |h.meta| == META && XAttrsFit(h.xattrs)
  }

  lemma {:induction false} HeadRound(h: Head, rest: seq<byte>)
    requires HeadFits(h)
    ensures DecHead(EncHead(h, rest)) == Ok(h, rest)
  {
    hide LE, EncXAttrs, XAttrsFit, Word, Take, DecXAttrs;
    var r8 := EncXAttrs(h.xattrs, rest);
    var r7 := LE(|h.xattrs|, 8) + r8;
    var r6 := h.meta + r7;
    var r5 := LE(h.blocks, 8) + r6;
    var r4 := LE(h.size, 8) + r5;
    var r3 := LE(h.mode, 4) + r4;
    var r2 := LE(h.nlink, 8) + r3;
    var r1 := LE(h.ino, 8) + r2;
    var r0 := LE(h.nlookup, 8) + r1;
    TakeRound([if h.marked then 1 else 0], r0);
    Word8(h.nlookup, r1);
    Word8(h.ino, r2);
    Word8(h.nlink, r3);
    Word4(h.mode, r4);
    Word8(h.size, r5);
    Word8(h.blocks, r6);
    TakeRound(h.meta, r7);
    XAttrsCountFits(h.xattrs);
    Word8(|h.xattrs|, r8);
    assert [] + h.xattrs == h.xattrs;
    WrapExact(h.nlink);
    WrapExact(h.nlookup);
    XAttrsRound([], h.xattrs, rest);
  }

  lemma {:induction false} XAttrsCountFits(xs: seq<XAttr>)
    requires XAttrsFit(xs)
    ensures Fits8(|xs|)
  {
  }

  function EncNode(n: Node, rest: seq<byte>): seq<byte> {
    EncHead(n.h, match n.body
                 case FileBody(data) => data + rest
                 case DirBody(es) => LE(|es|, 8) + EncEntries(es, rest)
                 case LinkBody(t) => t + rest
                 case SpecialBody(s) => LE(s, 4) + rest)
  }

  /** The Load of the class picked by the mode in the slot header.  A file whose
      st_size exceeds its blocks would overrun the buffer Load allocates. */
  function DecNode(mode: nat, bs: seq<byte>): Parsed<Node> {
    var h := DecHead(bs);
    if h.Bad? then Bad
    else if IsReg(mode) then
      var data := Take(h.rest, h.value.size);
      if data.Bad? || h.value.size > 512 * h.value.blocks then Bad
      else Ok(Node(h.value, FileBody(data.value)), data.rest)
    else if IsDirMode(mode) then
      var count := Word(h.rest, 8);
      if count.Bad? then Bad else
      var es := DecEntries(count.value, count.rest);
      if es.Bad? then Bad else Ok(Node(h.value, DirBody(es.value)), es.rest)
    else if IsLnk(mode) then
      var t := Take(h.rest, h.value.size);
      if t.Bad? then Bad else Ok(Node(h.value, LinkBody(t.value)), t.rest)
    else if IsSpecialMode(mode) || mode == 0 then
      var s := Word(h.rest, 4);
      if s.Bad? then Bad else Ok(Node(h.value, SpecialBody(s.value)), s.rest)
    else Bad
  }

  /** What the format relies on: fields in range, class and mode in agreement, and
      st_size the length of a file's or link's text. */
  ghost predicate NodeFits(n: Node) {
    && HeadFits(n.h)
    && match n.body
       case FileBody(data) => IsReg(n.h.mode) && n.h.size == |data| && n.h.size <= 512 * n.h.blocks
       case DirBody(es) => IsDirMode(n.h.mode) && Fits8(|es|) && EntriesFit(es)
       case LinkBody(t) => IsLnk(n.h.mode) && n.h.size == |t|
       case SpecialBody(s) => (IsSpecialMode(n.h.mode) || n.h.mode == 0) && s < 0x1_0000_0000
  }

  /** Loading an inode's bytes, whatever follows, gives the inode and leaves the rest. */
  lemma {:induction false} NodeRound(n: Node, rest: seq<byte>)
    requires NodeFits(n)
    ensures DecNode(n.h.mode, EncNode(n, rest)) == Ok(n, rest)
  {
    hide EncHead, DecHead, LE, EncEntries, EntriesFit, HeadFits;
    match n.body
    case FileBody(data) =>
      HeadRound(n.h, data + rest);
      TakeRound(data, rest);
    case DirBody(es) =>
      HeadRound(n.h, LE(|es|, 8) + EncEntries(es, rest));
      Word8(|es|, EncEntries(es, rest));
      EntriesRound(es, rest);
    case LinkBody(t) =>
      HeadRound(n.h, t + rest);
      TakeRound(t, rest);
    case SpecialBody(s) =>
      HeadRound(n.h, LE(s, 4) + rest);
      Word4(s, rest);
  }
}
