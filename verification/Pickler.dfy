/** Inode::Pickle and Inode::Load as they work: a cursor moving over a buffer. */
module Pickler {
  import opened Base
  import opened Model
  import opened Codec

  // ------------------------------------------------------------------- writing

  lemma {:induction false} Regroup(a: seq<byte>, b: seq<byte>, c: seq<byte>)
    ensures (a + b) + c == a + (b + c)
  {
  }

  /** One length-prefixed string written at the cursor. */
  lemma {:induction false} TextAppends(out: seq<byte>, t: seq<byte>, rest: seq<byte>)
    ensures (out + LE(|t|, 8) + t) + rest == out + EncText(t, rest)
  {
  }

  method PickleXAttrs(xs: seq<XAttr>, ghost rest: seq<byte>) returns (out: seq<byte>)
    ensures out + rest == EncXAttrs(xs, rest)
  {
    hide LE, EncText;
    out := [];
    for i := 0 to |xs|
      invariant out + EncXAttrs(xs[i..], rest) == EncXAttrs(xs, rest)
    {
      assert xs[i..][0] == xs[i] && xs[i..][1..] == xs[i + 1..];
      ghost var more := EncXAttrs(xs[i + 1..], rest);
      TextAppends(out, xs[i].key, EncText(xs[i].val, more));
      out := out + LE(|xs[i].key|, 8) + xs[i].key;
      TextAppends(out, xs[i].val, more);
      out := out + LE(|xs[i].val|, 8) + xs[i].val;
    }
  }

  method PickleEntries(es: seq<Entry>, ghost rest: seq<byte>) returns (out: seq<byte>)
    ensures out + rest == EncEntries(es, rest)
  {
    hide LE, EncText;
    out := [];
    for i := 0 to |es|
      invariant out + EncEntries(es[i..], rest) == EncEntries(es, rest)
    {
      assert es[i..][0] == es[i] && es[i..][1..] == es[i + 1..];
      ghost var more := EncEntries(es[i + 1..], rest);
      Regroup(out, LE(es[i].ino, 8), EncText(es[i].name, more));
      out := out + LE(es[i].ino, 8);
      TextAppends(out, es[i].name, more);
      out := out + LE(|es[i].name|, 8) + es[i].name;
    }
  }

  /** Inode::Pickle of the common part. */
  method PickleHead(h: Head, ghost rest: seq<byte>) returns (out: seq<byte>)
    ensures out + rest == EncHead(h, rest)
  {
    hide LE, EncXAttrs;
    var xs := PickleXAttrs(h.xattrs, rest);
    ghost var r8 := xs + rest;
    ghost var r7 := LE(|h.xattrs|, 8) + r8;
    ghost var r6 := h.meta + r7;
    ghost var r5 := LE(h.blocks, 8) + r6;
    ghost var r4 := LE(h.size, 8) + r5;
    ghost var r3 := LE(h.mode, 4) + r4;
    ghost var r2 := LE(h.nlink, 8) + r3;
    ghost var r1 := LE(h.ino, 8) + r2;
    out := [if h.marked then 1 else 0];
    Regroup(out, LE(h.nlookup, 8), r1);
    out := out + LE(h.nlookup, 8);
    Regroup(out, LE(h.ino, 8), r2);
    out := out + LE(h.ino, 8);
    Regroup(out, LE(h.nlink, 8), r3);
    out := out + LE(h.nlink, 8);
    Regroup(out, LE(h.mode, 4), r4);
    out := out + LE(h.mode, 4);
    Regroup(out, LE(h.size, 8), r5);
    out := out + LE(h.size, 8);
    Regroup(out, LE(h.blocks, 8), r6);
    out := out + LE(h.blocks, 8);
    Regroup(out, h.meta, r7);
    out := out + h.meta;
    Regroup(out, LE(|h.xattrs|, 8), r8);
    out := out + LE(|h.xattrs|, 8);
    Regroup(out, xs, rest);
    out := out + xs;
  }

  /** Pickle of the four classes. */
  method PickleNode(n: Node, ghost rest: seq<byte>) returns (out: seq<byte>)
    ensures out + rest == EncNode(n, rest)
  {
    hide LE, EncEntries, EncHead;
    var tail: seq<byte>;
    match n.body {
      case FileBody(data) => tail := data;
      case DirBody(es) =>
        var entries := PickleEntries(es, rest);
        tail := LE(|es|, 8) + entries;
        Regroup(LE(|es|, 8), entries, rest);
      case LinkBody(t) => tail := t;
      case SpecialBody(s) => tail := LE(s, 4);
    }
    var head := PickleHead(n.h, tail + rest);
    Regroup(head, tail, rest);
    out := head + tail;
  }

  // ------------------------------------------------------------- pickled sizes

  function XAttrsSize(xs: seq<XAttr>): nat {
    if xs == [] then 0 else 8 + |xs[0].key| + 8 + |xs[0].val| + XAttrsSize(xs[1..])
  }

  function EntriesSize(es: seq<Entry>): nat {
    if es == [] then 0 else 8 + 8 + |es[0].name| + EntriesSize(es[1..])
  }

  /** GetPickledSize of the four classes. */
  function PickledSize(n: Node): nat {
    1 + 8 + 176 + 8 + XAttrsSize(n.h.xattrs) +
    match n.body
    case FileBody(_) => n.h.size
    case DirBody(es) => 8 + EntriesSize(es)
    case LinkBody(t) => |t|
    case SpecialBody(_) => 4
  }

  lemma {:induction false} XAttrsLength(xs: seq<XAttr>, rest: seq<byte>)
    ensures |EncXAttrs(xs, rest)| == XAttrsSize(xs) + |rest|
  {
    if xs != [] {
      XAttrsLength(xs[1..], rest);
    }
  }

  lemma {:induction false} EntriesLength(es: seq<Entry>, rest: seq<byte>)
    ensures |EncEntries(es, rest)| == EntriesSize(es) + |rest|
  {
    if es != [] {
      EntriesLength(es[1..], rest);
    }
  }

  /** Pickle writes exactly GetPickledSize() bytes. */
  lemma {:induction false} PickleIsExact(n: Node, rest: seq<byte>)
    requires NodeFits(n)
    ensures |EncNode(n, rest)| == PickledSize(n) + |rest|
  {
    hide LE;
    match n.body
    case FileBody(data) => XAttrsLength(n.h.xattrs, data + rest);
    case DirBody(es) =>
      EntriesLength(es, rest);
      XAttrsLength(n.h.xattrs, LE(|es|, 8) + EncEntries(es, rest));
    case LinkBody(t) => XAttrsLength(n.h.xattrs, t + rest);
    case SpecialBody(s) => XAttrsLength(n.h.xattrs, LE(s, 4) + rest);
  }

  // ------------------------------------------------------------------- reading

  lemma {:induction false} Advance(buf: seq<byte>, ptr: nat, n: nat)
    requires ptr + n <= |buf|
    ensures buf[ptr..][..n] == buf[ptr..ptr + n] && buf[ptr..][n..] == buf[ptr + n..]
  {
  }

  /** memcpy of one little-endian field, advancing the cursor. */
  method ReadWord(buf: seq<byte>, ptr: nat, w: nat) returns (n: nat, next: nat)
    requires ptr <= |buf| && Word(buf[ptr..], w).Ok?
    ensures ptr <= next <= |buf| && Word(buf[ptr..], w) == Ok(n, buf[next..])
  {
    Advance(buf, ptr, w);
    n := UnLE(buf[ptr..ptr + w]);
    next := ptr + w;
  }

  method ReadBytes(buf: seq<byte>, ptr: nat, n: nat) returns (b: seq<byte>, next: nat)
    requires ptr <= |buf| && Take(buf[ptr..], n).Ok?
    ensures ptr <= next <= |buf| && Take(buf[ptr..], n) == Ok(b, buf[next..])
  {
    Advance(buf, ptr, n);
    b := buf[ptr..ptr + n];
    next := ptr + n;
  }

  method ReadText(buf: seq<byte>, ptr: nat) returns (t: seq<byte>, next: nat)
    requires ptr <= |buf| && DecText(buf[ptr..]).Ok?
    ensures ptr <= next <= |buf| && DecText(buf[ptr..]) == Ok(t, buf[next..])
  {
    hide Word, Take;
    var n;
    n, next := ReadWord(buf, ptr, 8);
    t, next := ReadBytes(buf, next, n);
  }

  /** The xattr loop of Inode::Load. */
  method LoadXAttrs(buf: seq<byte>, ptr: nat, n: nat) returns (xs: seq<XAttr>, next: nat)
    requires ptr <= |buf| && DecXAttrs(n, [], buf[ptr..]).Ok?
    ensures ptr <= next <= |buf| && DecXAttrs(n, [], buf[ptr..]) == Ok(xs, buf[next..])
  {
    hide DecText, Insert;
    xs, next := [], ptr;
    for i := 0 to n
      invariant ptr <= next <= |buf|
      invariant DecXAttrs(n - i, xs, buf[next..]) == DecXAttrs(n, [], buf[ptr..])
    {
      var k, v;
      k, next := ReadText(buf, next);
      v, next := ReadText(buf, next);
      xs := Insert(xs, XAttr(k, v));
    }
  }

  /** The entry loop of Directory::Load. */
  method LoadEntries(buf: seq<byte>, ptr: nat, n: nat) returns (es: seq<Entry>, next: nat)
    requires ptr <= |buf| && DecEntries(n, buf[ptr..]).Ok?
    ensures ptr <= next <= |buf| && DecEntries(n, buf[ptr..]) == Ok(es, buf[next..])
  {
    hide DecText, Word;
    es, next := [], ptr;
    ghost var all := DecEntries(n, buf[ptr..]);
    for i := 0 to n
      invariant ptr <= next <= |buf|
      invariant DecEntries(n - i, buf[next..]).Ok?
      invariant all.value == es + DecEntries(n - i, buf[next..]).value
      invariant all.rest == DecEntries(n - i, buf[next..]).rest
    {
      var ino, name;
      ino, next := ReadWord(buf, next, 8);
      name, next := ReadText(buf, next);
      ghost var more := DecEntries(n - i - 1, buf[next..]).value;
      assert es + ([Entry(name, ino)] + more) == (es + [Entry(name, ino)]) + more;
      es := es + [Entry(name, ino)];
    }
    assert all.value == es;
  }

  /** Inode::Load of the common part. */
  method LoadHead(buf: seq<byte>, ptr: nat) returns (h: Head, next: nat)
    requires ptr <= |buf| && DecHead(buf[ptr..]).Ok?
    ensures ptr <= next <= |buf| && DecHead(buf[ptr..]) == Ok(h, buf[next..])
  {
    hide Word, DecXAttrs;
    var marked, nlookup, ino, nlink, mode, size, blocks, meta, count, xs;
    marked, next := ReadBytes(buf, ptr, 1);
    nlookup, next := ReadWord(buf, next, 8);
    ino, next := ReadWord(buf, next, 8);
    nlink, next := ReadWord(buf, next, 8);
    mode, next := ReadWord(buf, next, 4);
    size, next := ReadWord(buf, next, 8);
    blocks, next := ReadWord(buf, next, 8);
    meta, next := ReadBytes(buf, next, META);
    count, next := ReadWord(buf, next, 8);
    xs, next := LoadXAttrs(buf, next, count);
    h := Head(ino, mode, Wrap(nlink), size, blocks, Wrap(nlookup), marked[0] != 0, meta, xs);
  }

  /** Load of the class the slot header's mode picks. */
  method LoadNode(mode: nat, buf: seq<byte>, ptr: nat) returns (n: Node, next: nat)
    requires ptr <= |buf| && DecNode(mode, buf[ptr..]).Ok?
    ensures ptr <= next <= |buf| && DecNode(mode, buf[ptr..]) == Ok(n, buf[next..])
  {
    hide Word, Take, DecHead, DecEntries;
    var h;
    h, next := LoadHead(buf, ptr);
    if IsReg(mode) {
      var data;
      data, next := ReadBytes(buf, next, h.size);
      n := Node(h, FileBody(data));
    } else if IsDirMode(mode) {
      var count, es;
      count, next := ReadWord(buf, next, 8);
      es, next := LoadEntries(buf, next, count);
      n := Node(h, DirBody(es));
    } else if IsLnk(mode) {
      var t;
      t, next := ReadBytes(buf, next, h.size);
      n := Node(h, LinkBody(t));
    } else {
      var s;
      s, next := ReadWord(buf, next, 4);
      n := Node(h, SpecialBody(s));
    }
  }
}
