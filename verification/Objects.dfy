/** The mutable objects of the server: statvfs counters and inodes. */
module Objects {
  import opened Base
  import opened Model

  /** The static m_stbuf and its guarded accessors. */
  class Counters {
    var v: Stat

    constructor (blocks: word, files: word, fixed: seq<byte>)
      ensures v == Sized(blocks, files, fixed)
    {
      var b: word := if blocks == 0 then 8388608 else blocks;
      var f: word := if files == 0 then 1048576 else files;
      v := Stat(b, b, b, f, f, f, fixed);
    }

    method UpdateUsedBlocks(added: int)
      modifies this
      ensures v == UseBlocks(old(v), added)
    {
      v := v.(bfree := Wrap(v.bfree - added), bavail := Wrap(v.bavail - added));
    }

    method UpdateUsedInodes(added: int)
      modifies this
      ensures v == UseInodes(old(v), added)
    {
      v := v.(ffree := Wrap(v.ffree - added), favail := Wrap(v.favail - added));
    }

    method CheckHasSpaceFor(oldBlocks: nat, oldSize: nat, inc: int) returns (ok: bool)
      ensures ok == HasSpaceFor(v, oldBlocks, oldSize, inc)
      ensures ok && inc > 0 ==> NBlocks(oldSize + inc) - oldBlocks <= v.bfree
    {
      if inc <= 0 {
        return true;
      }
      var newBlocks := NBlocks(oldSize + inc);
      if newBlocks <= oldBlocks {
        return true;
      }
      return v.bfree >= newBlocks - oldBlocks;
    }
  }

  // ------------------------------------------------------------ raw memory

  /** realloc: a new block with the common prefix copied; the rest is arbitrary. */
  method Realloc(a: array<byte>, n: nat) returns (b: array<byte>)
    ensures fresh(b) && b.Length == n
    ensures forall i :: 0 <= i < n && i < a.Length ==> b[i] == a[i]
  {
    b := new byte[n];
    var m := if n < a.Length then n else a.Length;
    forall i | 0 <= i < m {
      b[i] := a[i];
    }
  }

  method MemSet(a: array<byte>, from: nat, n: nat)
    requires from + n <= a.Length
    modifies a
    ensures forall i :: 0 <= i < a.Length ==> a[i] == if from <= i < from + n then 0 else old(a[i])
  {
    forall i | from <= i < from + n {
      a[i] := 0;
    }
  }

  method MemMove(a: array<byte>, off: nat, data: seq<byte>)
    requires off + |data| <= a.Length
    modifies a
    ensures forall i :: 0 <= i < a.Length ==> a[i] == if off <= i < off + |data| then data[i - off] else old(a[i])
  {
    forall i | off <= i < off + |data| {
      a[i] := data[i - off];
    }
  }

  /** Zero the hole a write may leave, then copy the data. */
  method Store(a: array<byte>, oldSize: nat, data: seq<byte>, off: nat)
    requires off + |data| <= a.Length && oldSize <= a.Length
    modifies a
    ensures forall i :: 0 <= i < a.Length ==>
              a[i] == if off <= i < off + |data| then data[i - off] else if oldSize <= i < off then 0 else old(a[i])
  {
    if off > oldSize {
      MemSet(a, oldSize, off - oldSize);
    }
    MemMove(a, off, data);
  }

  // --------------------------------------------------------------- inodes

  /** What the four subclasses store; a file's bytes live in a buffer of its own. */
  datatype Payload =
    | FileP(buf: array<byte>)
    | DirP(children: seq<Entry>)
    | LinkP(target: seq<byte>)
    | SpecialP(stype: nat)

  /** Where an object belongs: a slot of the live table or of a pooled snapshot. */
  datatype Home = Home(key: Option<nat>, slot: nat)

  /** A byte sequence with the written data in place, zeros in the hole and the old
      bytes elsewhere is the overwritten one. */
  lemma {:induction false} IsOverwritten(c: seq<byte>, data: seq<byte>, off: nat, r: seq<byte>)
    requires |r| == if off + |data| > |c| then off + |data| else |c|
    requires forall i :: 0 <= i < |r| ==>
               r[i] == if off <= i < off + |data| then data[i - off] else if i < |c| then c[i] else 0
    ensures r == Overwrite(c, data, off)
  {
  }

  class Inode {
    var h: Head
    var p: Payload
    ghost var home: Home

    /** A file's buffer holds exactly its blocks, and st_size lies within. */
    ghost predicate Valid()
      reads this, if p.FileP? then {p.buf} else {}
    {
      p.FileP? ==> p.buf.Length == 512 * h.blocks && h.size <= p.buf.Length
    }

    /** The inode as a value: a file's bytes are those below st_size. */
    ghost function View(): Node
      requires Valid()
      reads this, if p.FileP? then {p.buf} else {}
    {
      Node(h, match p
              case FileP(buf) => FileBody(buf[..h.size])
              case DirP(es) => DirBody(es)
              case LinkP(t) => LinkBody(t)
              case SpecialP(s) => SpecialBody(s))
    }

    /** The subclass constructors: nothing initialised but the class's own part. */
    constructor (body: Body)
      requires body.FileBody? ==> body.data == []
      ensures Valid() && View().body == body && h.blocks == 0 && h.size == 0
      ensures p.FileP? ==> fresh(p.buf)
    {
      h := Head(0, 0, 0, 0, 0, 0, false, [], []);
      var none := new byte[0];
      p := match body
           case FileBody(_) => FileP(none)
           case DirBody(es) => DirP(es)
           case LinkBody(t) => LinkP(t)
           case SpecialBody(s) => SpecialP(s);
    }

    /** The copy constructors: a file gets a buffer of its own, all blocks copied. */
    constructor Copy(src: Inode)
      requires src.Valid()
      ensures Valid() && View() == src.View()
      ensures p.FileP? ==> fresh(p.buf)
    {
      h := src.h;
      if src.p.FileP? {
        var buf := Realloc(src.p.buf, 512 * src.h.blocks);
        p := FileP(buf);
      } else {
        p := src.p;
      }
      new;
      assert p.FileP? ==> p.buf[..h.size] == src.p.buf[..h.size];
    }

    /** Load: a file's buffer is calloc'ed at st_blocks and filled up to st_size. */
    constructor Load(n: Node, ghost home: Home)
      requires n.body.FileBody? ==> n.h.size == |n.body.data| && n.h.size <= 512 * n.h.blocks
      ensures Valid() && View() == n && this.home == home
      ensures p.FileP? ==> fresh(p.buf)
    {
      h := n.h;
      this.home := home;
      var buf := new byte[if n.body.FileBody? then 512 * n.h.blocks else 0](_ => 0);
      if n.body.FileBody? {
        MemMove(buf, 0, n.body.data);
      }
      p := match n.body
           case FileBody(_) => FileP(buf)
           case DirBody(es) => DirP(es)
           case LinkBody(t) => LinkP(t)
           case SpecialBody(s) => SpecialP(s);
      new;
      assert n.body.FileBody? ==> buf[..h.size] == n.body.data;
    }

    /** The inode's fields and, for a file, the first st_size bytes of its buffer. */
    method Snapshot() returns (n: Node)
      requires Valid()
      ensures n == View()
    {
      n := Node(h, match p
                   case FileP(buf) => FileBody(buf[..h.size])
                   case DirP(es) => DirBody(es)
                   case LinkP(t) => LinkBody(t)
                   case SpecialP(s) => SpecialBody(s));
    }

    /** Initialize of the class; returns nothing, charges a directory's first block. */
    method Initialize(st: Counters, ino: nat, mode: nat, nlink: word, meta: seq<byte>)
      requires Valid() && (p.FileP? ==> p.buf.Length == 0)
      modifies this, st
      ensures p == old(p) && home == old(home) && Valid()
      ensures View() == Fresh(ino, mode, nlink, meta, old(View()).body)
      ensures st.v == if p.DirP? then UseBlocks(old(st.v), 1) else old(st.v)
    {
      h := Head(ino, mode, nlink, 0, 0, 0, false, meta, []);
      match p
      case DirP(_) =>
        UpdateSize(st, 24);
      case LinkP(t) =>
        h := h.(size := |t|, blocks := |t| / 512);
        if 512 * h.blocks < h.size {
          h := h.(blocks := h.blocks + 1);
        }
      case _ =>
    }

    // ------------------------------------------------------------- directories

    /** Directory::UpdateSize; its assertion against a negative size is the requires. */
    method UpdateSize(st: Counters, delta: int)
      requires p.DirP? && 0 <= h.size + delta
      modifies this`h, st
      ensures h == old(h).(size := old(h).size + delta, blocks := NBlocks(old(h).size + delta))
      ensures st.v == UseBlocks(old(st.v), NBlocks(old(h).size + delta) - old(h).blocks)
    {
      var oldBlocks := h.blocks;
      var newSize := h.size + delta;
      var newBlocks: int := NBlocks(newSize);
      h := h.(size := newSize);
      if newBlocks != oldBlocks {
        h := h.(blocks := newBlocks);
        st.UpdateUsedBlocks(newBlocks - oldBlocks);
      }
    }

    /** Directory::find. */
    method FindChild(name: Name) returns (k: nat)
      requires p.DirP?
      ensures k == Find(p.children, name)
    {
      k := 0;
      while k < |p.children| && p.children[k].name != name
        invariant k <= |p.children|
        invariant forall j :: 0 <= j < k ==> p.children[j].name != name
      {
        k := k + 1;
      }
      FindIs(p.children, name, k);
    }

    /** _ChildInodeNumberWithName. */
    method ChildInodeNumber(name: Name) returns (ino: nat)
      requires p.DirP?
      ensures ino == ChildIno(p.children, name)
    {
      var k := FindChild(name);
      ino := if k == |p.children| then 0 else p.children[k].ino;
    }

    method AddChild(st: Counters, name: Name, ino: nat) returns (ret: Errno)
      requires p.DirP?
      modifies this, st
      ensures home == old(home) && p.DirP?
      ensures var es, hd := old(p.children), old(h);
              if Find(es, name) < |es| then ret == EEXIST && p == old(p) && h == hd && st.v == old(st.v)
              else if !HasSpaceFor(old(st.v), hd.blocks, hd.size, Cost(name)) then
                ret == ENOSPC && p == old(p) && h == hd && st.v == old(st.v)
              else
                && ret == OK && p.children == es + [Entry(name, ino)]
                && h == hd.(size := hd.size + Cost(name), blocks := NBlocks(hd.size + Cost(name)))
                && st.v == UseBlocks(old(st.v), NBlocks(hd.size + Cost(name)) - hd.blocks)
    {
      var k := FindChild(name);
      if k != |p.children| {
        return EEXIST;
      }
      var elemSize := 72 + |name|;
      var ok := st.CheckHasSpaceFor(h.blocks, h.size, elemSize);
      if !ok {
        return ENOSPC;
      }
      p := DirP(p.children + [Entry(name, ino)]);
      UpdateSize(st, elemSize);
      return OK;
    }

    method UpdateChild(name: Name, ino: nat)
      requires p.DirP?
      modifies this`p
      ensures p.DirP?
      ensures var es, k := old(p.children), Find(old(p.children), name);
              p.children == if k == |es| then es else es[k := Entry(name, ino)]
    {
      var k := FindChild(name);
      if k != |p.children| {
        p := DirP(p.children[k := Entry(name, ino)]);
      }
    }

    /** The entry must be covered by st_size, or UpdateSize would assert. */
    method RemoveChild(st: Counters, name: Name)
      requires p.DirP?
      requires Find(p.children, name) < |p.children| ==> Cost(name) <= h.size
      modifies this, st
      ensures home == old(home) && p.DirP?
      ensures var es, k, hd := old(p.children), Find(old(p.children), name), old(h);
              if k == |es| then p == old(p) && h == hd && st.v == old(st.v)
              else
                && p.children == es[..k] + es[k + 1..]
                && h == hd.(size := hd.size - Cost(name), blocks := NBlocks(hd.size - Cost(name)))
                && st.v == UseBlocks(old(st.v), NBlocks(hd.size - Cost(name)) - hd.blocks)
    {
      var k := FindChild(name);
      if k == |p.children| {
        return;
      }
      p := DirP(p.children[..k] + p.children[k + 1..]);
      UpdateSize(st, 0 - (72 + |name|));
    }

    // ------------------------------------------------------------------- files

    /** File::FileTruncate; `mem` tells whether realloc succeeds. */
    method FileTruncate(st: Counters, newSize: nat, mem: bool) returns (ret: Errno)
      requires Valid() && p.FileP? && h.blocks == NBlocks(h.size)
      modifies this, p.buf, st
      ensures home == old(home) && p.FileP? && Valid()
      ensures p.buf == old(p.buf) || fresh(p.buf)
      ensures var hd := old(h);
              ret == if !HasSpaceFor(old(st.v), hd.blocks, hd.size, newSize - hd.size) then ENOSPC
                     else if NBlocks(newSize) != hd.blocks && NBlocks(newSize) > 0 && !mem then EINVAL
                     else OK
      ensures ret != OK ==> View() == old(View()) && st.v == old(st.v)
      ensures ret == OK ==>
                && View() == Node(old(h).(size := newSize, blocks := NBlocks(newSize)),
                                  FileBody(Resized(old(View()).body.data, newSize)))
                && st.v == UseBlocks(old(st.v), NBlocks(newSize) - old(h).blocks)
    {
      var newBlocks: int := NBlocks(newSize);
      var oldBlocks, oldSize := h.blocks, h.size;
      var ok := st.CheckHasSpaceFor(h.blocks, h.size, newSize - oldSize);
      if !ok {
        return ENOSPC;
      }
      if newBlocks != oldBlocks {
        if newBlocks > 0 && !mem {
          return EINVAL;
        }
        var newbuf := Realloc(p.buf, newBlocks * 512);
        p := FileP(newbuf);
      }
      if newSize > oldSize {
        MemSet(p.buf, oldSize, newSize - oldSize);
      }
      st.UpdateUsedBlocks(newBlocks - oldBlocks);
      h := h.(blocks := newBlocks, size := newSize);
      assert p.buf[..newSize] == Resized(old(View()).body.data, newSize);
      return OK;
    }

    /** File::WriteAndReply. */
    method FileWrite(st: Counters, data: seq<byte>, off: nat, mem: bool) returns (r: Reply)
      requires Valid() && p.FileP? && h.blocks == NBlocks(h.size)
      modifies this, p.buf, st
      ensures home == old(home) && p.FileP? && Valid()
      ensures p.buf == old(p.buf) || fresh(p.buf)
      ensures var hd := old(h);
              var grow := off + |data| > 512 * hd.blocks;
              r == if grow && !HasSpaceFor(old(st.v), hd.blocks, hd.size, off + |data| - hd.size) then Error(ENOSPC)
                   else if grow && !mem then Wrote(0)
                   else Wrote(|data|)
      ensures var hd := old(h);
              if off + |data| > 512 * hd.blocks
                 && (!HasSpaceFor(old(st.v), hd.blocks, hd.size, off + |data| - hd.size) || !mem)
              then View() == old(View()) && st.v == old(st.v)
              else
                var c := Overwrite(old(View()).body.data, data, off);
                && View() == Node(hd.(size := |c|, blocks := NBlocks(|c|)), FileBody(c))
                && st.v == UseBlocks(old(st.v), NBlocks(|c|) - hd.blocks)
    {
      hide NBlocks, UseBlocks, Wrap, Overwrite;
      ghost var c0 := p.buf[..h.size];
      var newSize := off + |data|;
      var oldSize := h.size;
      var originalCapacity := 512 * h.blocks;
      var newBlocks: int := newSize / 512 + (if newSize % 512 != 0 then 1 else 0);
      BlocksOfWrite(h.size, newSize);
      NoCharge(st.v);
      if newSize > originalCapacity {
        var ok := st.CheckHasSpaceFor(h.blocks, h.size, newSize - h.size);
        if !ok {
          return Error(ENOSPC);
        }
        if !mem {
          return Wrote(0);
        }
        var newBuf := Realloc(p.buf, newBlocks * 512);
        p := FileP(newBuf);
      }
      Store(p.buf, oldSize, data, off);
      if newSize > originalCapacity {
        st.UpdateUsedBlocks(newBlocks - h.blocks);
      }
      if newSize > oldSize {
        h := h.(blocks := newBlocks, size := newSize);
      }
      IsOverwritten(c0, data, off, p.buf[..h.size]);
      return Wrote(|data|);
    }

    /** File::ReadAndReply. */
    method FileRead(size: nat, off: nat) returns (bytes: seq<byte>)
      requires Valid() && p.FileP?
      ensures var c := View().body.data;
              bytes == if off > |c| then [] else if off + size > |c| then c[off..] else c[off..off + size]
    {
      if off > h.size {
        return [];
      }
      var bytesRead := if off + size > h.size then h.size - off else size;
      bytes := p.buf[..h.size][off..off + bytesRead];
    }
  }

  /** The loop of find returns the first match. */
  lemma {:induction false} FindIs(es: seq<Entry>, name: Name, k: nat)
    requires k <= |es| && (k < |es| ==> es[k].name == name)
    requires forall j :: 0 <= j < k ==> es[j].name != name
    ensures Find(es, name) == k
  {
  }
}
