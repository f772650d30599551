/** The file system as a value: inode table, free queue, statvfs counters and
    checkpoint pool, with one total function per request.  The server class
    refines these functions; the invariants and theorems are about them. */
module Model {
  import opened Base

  // ---------------------------------------------------------------- entities

  type Name = seq<byte>

  const DOT: Name := [46]
  const DOTDOT: Name := [46, 46]

  predicate Dot(name: Name) {
    name == [46] || name == [46, 46]
  }

  datatype Entry = Entry(name: Name, ino: nat)
  datatype XAttr = XAttr(key: Name, val: seq<byte>)

  /** What the four Inode subclasses add to the common part. */
  datatype Body =
    | FileBody(data: seq<byte>)
    | DirBody(children: seq<Entry>)
    | LinkBody(target: seq<byte>)
    | SpecialBody(stype: nat)

  /** The common part of an inode.  `meta` stands for the attribute bytes no
      branch looks at: owner, timestamps, device and timeouts. */
  datatype Head = Head(ino: nat, mode: nat, nlink: word, size: nat, blocks: nat,
                       nlookup: word, marked: bool, meta: seq<byte>, xattrs: seq<XAttr>)

  datatype Node = Node(h: Head, body: Body)

  datatype Stat = Stat(blocks: word, bfree: word, bavail: word,
                       files: word, ffree: word, favail: word, fixed: seq<byte>)

  /** The verifs2_state triple. */
  datatype Fs = Fs(nodes: seq<Option<Node>>, deleted: seq<nat>, stat: Stat)

  datatype State = State(live: Fs, pool: map<nat, Fs>)

  datatype Errno = OK | ENOENT | ENOTDIR | EISDIR | EEXIST | ENOSPC | EINVAL | ENOTEMPTY | EBADF

  /** Negated is an error code sent with the wrong sign. */
  datatype Reply =
    | Error(e: Errno)
    | Negated(e: Errno)
    | Done
    | EntryOf(ino: nat)
    | Wrote(count: nat)
    | Bytes(data: seq<byte>)

  const ROOT: nat := 1

  // -------------------------------------------------------------- mode bits

  function TypeBits(mode: nat): nat {
    (mode / 0x1000) % 16
  }

  predicate IsReg(mode: nat) { TypeBits(mode) == 8 }
  predicate IsDirMode(mode: nat) { TypeBits(mode) == 4 }
  predicate IsLnk(mode: nat) { TypeBits(mode) == 10 }
  predicate IsSpecialMode(mode: nat) {
    TypeBits(mode) == 2 || TypeBits(mode) == 6 || TypeBits(mode) == 1 || TypeBits(mode) == 12
  }

  /** mode | S_IFDIR and mode | S_IFREG set a single bit. */
  function OrBit(mode: nat, bit: nat): nat
    requires bit > 0
  {
    if (mode / bit) % 2 == 1 then mode else mode + bit
  }

  const S_IFDIR: nat := 0x4000
  const S_IFREG: nat := 0x8000
  const SYMLINK_MODE: nat := 0xA1FF

  /** The object do_create_node builds for a mode, if any. */
  function NewBody(mode: nat, link: Option<seq<byte>>): Option<Body> {
    if IsReg(mode) then Some(FileBody([]))
    else if IsDirMode(mode) then Some(DirBody([]))
    else if TypeBits(mode) == 2 then Some(SpecialBody(1))
    else if TypeBits(mode) == 6 then Some(SpecialBody(2))
    else if TypeBits(mode) == 1 then Some(SpecialBody(3))
    else if TypeBits(mode) == 12 then Some(SpecialBody(4))
    else if IsLnk(mode) && link.Some? then Some(LinkBody(link.value))
    else None
  }

  // ------------------------------------------------------- table and counters

  predicate Live(fs: Fs, i: nat) {
    i < |fs.nodes| && fs.nodes[i].Some?
  }

  function At(fs: Fs, i: nat): Node
    requires Live(fs, i)
  {
    fs.nodes[i].value
  }

  predicate IsDir(fs: Fs, i: nat) {
    Live(fs, i) && At(fs, i).body.DirBody?
  }

  predicate IsFile(fs: Fs, i: nat) {
    Live(fs, i) && At(fs, i).body.FileBody?
  }

  function Children(fs: Fs, i: nat): seq<Entry>
    requires IsDir(fs, i)
  {
    At(fs, i).body.children
  }

  /** A deleted inode: null slot or link count zero. */
  predicate Gone(fs: Fs, i: nat) {
    !Live(fs, i) || At(fs, i).h.nlink == 0
  }

  function PutSlot(nodes: seq<Option<Node>>, i: nat, v: Option<Node>): seq<Option<Node>> {
    if i < |nodes| then nodes[i := v] else nodes + [v]
  }

  function SetNode(fs: Fs, i: nat, n: Node): Fs
    requires Live(fs, i)
  {
    fs.(nodes := fs.nodes[i := Some(n)])
  }

  function SetHead(fs: Fs, i: nat, h: Head): Fs
    requires Live(fs, i)
  {
    SetNode(fs, i, At(fs, i).(h := h))
  }

  function UseBlocks(s: Stat, added: int): Stat {
    s.(bfree := Wrap(s.bfree - added), bavail := Wrap(s.bavail - added))
  }

  lemma {:induction false} NoCharge(s: Stat)
    ensures UseBlocks(s, 0) == s
  {
  }

  function UseInodes(s: Stat, added: int): Stat {
    s.(ffree := Wrap(s.ffree - added), favail := Wrap(s.favail - added))
  }

  /** A file or directory may grow: the blocks to be added are free. */
  predicate HasSpaceFor(s: Stat, oldBlocks: nat, oldSize: nat, inc: int) {
    inc <= 0 || NBlocks(oldSize + inc) - oldBlocks <= s.bfree
  }

  // --------------------------------------------------------------- directories

  /** Index of the first entry with this name, or the length when there is none. */
  function Find(es: seq<Entry>, name: Name): (k: nat)
    ensures k <= |es|
    ensures k < |es| ==> es[k].name == name
    ensures forall j :: 0 <= j < k ==> es[j].name != name
  {
    if es == [] then 0
    else if es[0].name == name then 0
    else
      var k := Find(es[1..], name);
      assert forall j :: 1 <= j < k + 1 ==> es[j] == es[1..][j - 1];
      k + 1
  }

  /** Inode number bound to the name; 0 is INO_NOTFOUND. */
  function ChildIno(es: seq<Entry>, name: Name): nat {
    var k := Find(es, name);
    if k < |es| then es[k].ino else 0
  }

  /** Size charged for one entry: tree node base, inode number, string object, text. */
  function Cost(name: Name): nat {
    72 + |name|
  }

  /** sizeof(std::vector): the size of a directory without entries. */
  const DIR_BASE: nat := 24

  /** Replace the entry vector of directory d and apply UpdateSize. */
  function PutChildren(fs: Fs, d: nat, es: seq<Entry>, size: nat): Fs
    requires IsDir(fs, d)
  {
    var h := At(fs, d).h;
    var n := Node(h.(size := size, blocks := NBlocks(size)), DirBody(es));
    SetNode(fs, d, n).(stat := UseBlocks(fs.stat, NBlocks(size) - h.blocks))
  }

  function AddChild(fs: Fs, d: nat, name: Name, ino: nat): (Fs, Errno) {
    if !IsDir(fs, d) then (fs, ENOTDIR) else
    var es, h := Children(fs, d), At(fs, d).h;
    if Find(es, name) < |es| then (fs, EEXIST)
    else if !HasSpaceFor(fs.stat, h.blocks, h.size, Cost(name)) then (fs, ENOSPC)
    else (PutChildren(fs, d, es + [Entry(name, ino)], h.size + Cost(name)), OK)
  }

  function UpdateChild(fs: Fs, d: nat, name: Name, ino: nat): Fs {
    if !IsDir(fs, d) then fs else
    var es := Children(fs, d);
    var k := Find(es, name);
    if k == |es| then fs
    else SetNode(fs, d, Node(At(fs, d).h, DirBody(es[k := Entry(name, ino)])))
  }

  function Minus(a: nat, b: nat): nat {
    if b <= a then a - b else 0
  }

  function RemoveChild(fs: Fs, d: nat, name: Name): Fs {
    if !IsDir(fs, d) then fs else
    var es := Children(fs, d);
    var k := Find(es, name);
    if k == |es| then fs
    else PutChildren(fs, d, es[..k] + es[k + 1..], Minus(At(fs, d).h.size, Cost(name)))
  }

  /** No entry but "." and ".." names an undeleted inode. */
  predicate IsEmpty(fs: Fs, es: seq<Entry>) {
    forall j :: 0 <= j < |es| && !Dot(es[j].name) ==> Gone(fs, es[j].ino)
  }

  // --------------------------------------------------------- per-inode counters

  function AddLinks(fs: Fs, i: nat, n: int): Fs {
    if !Live(fs, i) then fs
    else var h := At(fs, i).h; SetHead(fs, i, h.(nlink := Wrap(h.nlink + n)))
  }

  function AddLookups(fs: Fs, i: nat, n: int): Fs {
    if !Live(fs, i) then fs
    else var h := At(fs, i).h; SetHead(fs, i, h.(nlookup := Wrap(h.nlookup + n)))
  }

  /** NumLinks() returns an int: the low 32 bits, read as signed. */
  function NumLinks(nlink: word): int {
    var m := nlink % 0x1_0000_0000;
    if m < 0x8000_0000 then m else m - 0x1_0000_0000
  }

  // ------------------------------------------------- registering and deleting

  /** An inode as Initialize leaves it. */
  function Fresh(ino: nat, mode: nat, nlink: word, meta: seq<byte>, body: Body): Node {
    var size := match body
                case DirBody(_) => DIR_BASE
                case LinkBody(t) => |t|
                case _ => 0;
    Node(Head(ino, mode, nlink, size, NBlocks(size), 0, false, meta, []), body)
  }

  /** The number the next registration will use. */
  function NextSlot(fs: Fs): nat {
    if fs.deleted == [] then |fs.nodes| else fs.deleted[0]
  }

  function Register(fs: Fs, mode: nat, nlink: word, meta: seq<byte>, body: Body): Fs {
    var ino := NextSlot(fs);
    var node := Fresh(ino, mode, nlink, meta, body);
    var s := UseInodes(fs.stat, 1);
    // Directory::Initialize charges the first block through UpdateSize ...
    var s1 := if body.DirBody? then UseBlocks(s, node.h.blocks) else s;
    // ... and RegisterInode charges every node's blocks once more
    Fs(PutSlot(fs.nodes, ino, Some(node)),
       if fs.deleted == [] then [] else fs.deleted[1..],
       UseBlocks(s1, node.h.blocks))
  }

  function DeleteInode(fs: Fs, ino: nat): Fs {
    fs.(nodes := PutSlot(fs.nodes, ino, None), deleted := fs.deleted + [ino])
  }

  // ------------------------------------------------------------------ requests

  function CheckParent(fs: Fs, p: nat): Errno {
    if Gone(fs, p) then ENOENT else if !IsDir(fs, p) then ENOTDIR else OK
  }

  function Lookup(fs: Fs, p: nat, name: Name): (Fs, Reply) {
    var e := CheckParent(fs, p);
    if e != OK then (fs, Error(e)) else
    var ino := ChildIno(Children(fs, p), name);
    if ino == 0 || Gone(fs, ino) then (fs, Error(ENOENT))
    else (AddLookups(fs, ino, 1), EntryOf(ino))
  }

  /** The new directory's own two entries; their error codes are overwritten. */
  function AddDots(fs: Fs, ino: nat, parentIno: nat): Fs {
    AddChild(AddChild(fs, ino, DOT, ino).0, ino, DOTDOT, parentIno).0
  }

  /** Undo of a registration whose name could not be added: the blocks are
      charged a further time instead of being refunded. */
  function Rollback(fs: Fs, ino: nat): Fs {
    var b := if Live(fs, ino) then At(fs, ino).h.blocks else 0;
    DeleteInode(fs.(stat := UseBlocks(UseInodes(fs.stat, -1), b)), ino)
  }

  /** The table after registration and "." and "..", before the name is added. */
  function Prepared(fs: Fs, p: nat, mode: nat, body: Body, meta: seq<byte>): Fs {
    var f := Register(fs, mode, if body.DirBody? then 2 else 1, meta, body);
    if body.DirBody? then AddDots(f, NextSlot(fs), if Live(fs, p) then At(fs, p).h.ino else p) else f
  }

  function DoCreateNode(fs: Fs, p: nat, name: Name, mode: nat,
                        link: Option<seq<byte>>, meta: seq<byte>): (Fs, Reply)
  {
    var body := NewBody(mode, link);
    if body.None? then (fs, Error(EINVAL))
    else if fs.stat.ffree == 0 then (fs, Error(ENOSPC))
    else
      var ino := NextSlot(fs);
      var f := Prepared(fs, p, mode, body.value, meta);
      var (g, ret) := AddChild(f, p, name, ino);
      if ret != OK then (Rollback(g, ino), Error(ret))
      else (if body.value.DirBody? then AddLinks(g, p, 1) else g, EntryOf(ino))
  }

  /** A created node is replied as an entry, which the kernel counts. */
  function ReplyNew(r: (Fs, Reply)): (Fs, Reply) {
    if r.1.EntryOf? then (AddLookups(r.0, r.1.ino, 1), r.1) else r
  }

  /** mknod and mkdir; mkdir has or-ed in the type. */
  function Mknod(fs: Fs, p: nat, name: Name, mode: nat, meta: seq<byte>): (Fs, Reply) {
    var e := CheckParent(fs, p);
    if e != OK then (fs, Error(e))
    else if fs.stat.ffree == 0 then (fs, Error(ENOSPC))
    else if ChildIno(Children(fs, p), name) != 0 then (fs, Error(EEXIST))
    else ReplyNew(DoCreateNode(fs, p, name, mode, None, meta))
  }

  const PATH_MAX: nat := 4096

  /** FuseSymlink's own test: blocks for a new object as large as the name. */
  predicate SymlinkRoom(s: Stat, name: Name) {
    HasSpaceFor(s, 0, 0, if |name| < PATH_MAX then |name| else PATH_MAX)
  }

  /** The two space tests answer ENOSPC without returning: the request goes on, and
      what it would answer then comes too late. */
  function Symlink(fs: Fs, target: seq<byte>, p: nat, name: Name, meta: seq<byte>): (Fs, Reply) {
    var e := CheckParent(fs, p);
    if e != OK then (fs, Error(e)) else
    var refused := !SymlinkRoom(fs.stat, name) || fs.stat.ffree == 0;
    var (g, r) := if ChildIno(Children(fs, p), name) != 0 then (fs, Error(EEXIST))
                  else ReplyNew(DoCreateNode(fs, p, name, SYMLINK_MODE, Some(target), meta));
    (g, if refused then Error(ENOSPC) else r)
  }

  function Create(fs: Fs, p: nat, name: Name, mode: nat, meta: seq<byte>): (Fs, Reply) {
    var e := CheckParent(fs, p);
    if e != OK then (fs, Error(e))
    else ReplyNew(DoCreateNode(fs, p, name, OrBit(mode, S_IFREG), None, meta))
  }

  function Unlink(fs: Fs, p: nat, name: Name): (Fs, Reply) {
    var e := CheckParent(fs, p);
    if e != OK then (fs, Error(e)) else
    var ino := ChildIno(Children(fs, p), name);
    if ino == 0 then (fs, Error(ENOENT))
    else (AddLinks(RemoveChild(fs, p, name), ino, -1), Done)
  }

  /** The link count left by `while (NumLinks() > 0) DecrementLinkCount()`. */
  function Drained(nlink: word): word {
    if NumLinks(nlink) > 0 then Wrap(nlink - NumLinks(nlink)) else nlink
  }

  function Rmdir(fs: Fs, p: nat, name: Name): (Fs, Reply) {
    var e := CheckParent(fs, p);
    if e != OK then (fs, Error(e)) else
    var ino := ChildIno(Children(fs, p), name);
    if ino == 0 then (fs, Error(ENOENT))
    else if ino == p then (fs, Error(EINVAL))
    else if Gone(fs, ino) then (fs, Error(ENOENT))
    else if !IsDir(fs, ino) then (fs, Error(ENOTDIR))
    else if !IsEmpty(fs, Children(fs, ino)) then (fs, Error(ENOTEMPTY))
    else
      var f := AddLinks(RemoveChild(fs, p, name), p, -1);
      if !Live(f, ino) then (f, Done) else
      var h := At(f, ino).h;
      (SetHead(f, ino, h.(nlink := Drained(h.nlink))), Done)
  }

  /** The first error of the parent and source checks of rename. */
  function RenameCheck(fs: Fs, p: nat, name: Name, np: nat): Errno {
    if Gone(fs, p) then ENOENT
    else if Gone(fs, np) then ENOENT
    else if !IsDir(fs, p) then ENOTDIR
    else if !IsDir(fs, np) then ENOTDIR
    else if Gone(fs, ChildIno(Children(fs, p), name)) then ENOENT
    else OK
  }

  /** The destination exists as far as rename is concerned. */
  predicate Occupied(fs: Fs, dst: nat) {
    Live(fs, dst) && NumLinks(At(fs, dst).h.nlink) > 0
  }

  function ReplaceCheck(fs: Fs, src: nat, dst: nat): Errno
    requires Live(fs, src) && Live(fs, dst)
  {
    var sdir, ddir := IsDirMode(At(fs, src).h.mode), IsDirMode(At(fs, dst).h.mode);
    if sdir && !ddir then ENOTDIR
    else if ddir && IsDir(fs, dst) && !IsEmpty(fs, Children(fs, dst)) then ENOTEMPTY
    else if !sdir && ddir then EISDIR
    else OK
  }

  function Replace(fs: Fs, p: nat, name: Name, np: nat, newname: Name, src: nat, dst: nat): Fs
    requires Live(fs, dst)
  {
    var ddir := IsDirMode(At(fs, dst).h.mode);
    var f := RemoveChild(UpdateChild(AddLinks(fs, dst, -1), np, newname, src), p, name);
    if ddir then AddLinks(AddLinks(f, dst, -2), p, -1) else f
  }

  function Move(fs: Fs, p: nat, name: Name, np: nat, newname: Name, src: nat): Fs
    requires Live(fs, src)
  {
    var f := RemoveChild(AddChild(fs, np, newname, src).0, p, name);
    if IsDirMode(At(fs, src).h.mode) then AddLinks(AddLinks(f, p, -1), np, 1) else f
  }

  function Rename(fs: Fs, p: nat, name: Name, np: nat, newname: Name): (Fs, Reply) {
    var e := RenameCheck(fs, p, name, np);
    if e != OK then (fs, Error(e)) else
    var src, dst := ChildIno(Children(fs, p), name), ChildIno(Children(fs, np), newname);
    if Occupied(fs, dst) then
      var e := ReplaceCheck(fs, src, dst);
      if e != OK then (fs, Error(e)) else (Replace(fs, p, name, np, newname, src, dst), Done)
    else (Move(fs, p, name, np, newname, src), Done)
  }

  function Link(fs: Fs, ino: nat, np: nat, newname: Name): (Fs, Reply) {
    if Gone(fs, ino) then (fs, Error(ENOENT)) else
    var e := CheckParent(fs, np);
    if e != OK then (fs, Error(e))
    else if ChildIno(Children(fs, np), newname) != 0 then (fs, Error(EEXIST))
    else
      var (f, ret) := AddChild(fs, np, newname, ino);
      if ret != OK then (f, Error(ret))
      else (AddLookups(AddLinks(f, ino, 1), ino, 1), EntryOf(ino))
  }

  function Forget(fs: Fs, ino: nat, n: nat): Fs {
    if !Live(fs, ino) then fs else
    var f := AddLookups(fs, ino, 0 - n);
    var h := At(f, ino).h;
    if h.nlookup == 0 && h.nlink == 0 then
      var g := DeleteInode(f, ino);
      g.(stat := UseBlocks(UseInodes(g.stat, -1), 0 - h.blocks))
    else f
  }

  // ------------------------------------------------------------ file contents

  function Zeros(n: nat): (z: seq<byte>)
    ensures |z| == n
  {
    seq(n, _ => 0)
  }

  /** A POSIX byte sequence after writing `data` at `off`; a gap reads as zeros. */
  function Overwrite(c: seq<byte>, data: seq<byte>, off: nat): (r: seq<byte>)
    ensures |r| == if off + |data| > |c| then off + |data| else |c|
  {
    var pad := if off > |c| then c + Zeros(off - |c|) else c;
    pad[..off] + data + (if off + |data| < |pad| then pad[off + |data|..] else [])
  }

  function Resized(c: seq<byte>, size: nat): (r: seq<byte>)
    ensures |r| == size
  {
    if size <= |c| then c[..size] else c + Zeros(size - |c|)
  }

  function SetData(fs: Fs, i: nat, data: seq<byte>): Fs
    requires IsFile(fs, i)
  {
    var h := At(fs, i).h;
    var b := NBlocks(|data|);
    SetNode(fs, i, Node(h.(size := |data|, blocks := b), FileBody(data)))
      .(stat := UseBlocks(fs.stat, b - h.blocks))
  }

  /** What a write to a non-file answers, by class. */
  function NoData(body: Body): Errno {
    if body.SpecialBody? then ENOENT else EISDIR
  }

  /** `mem` tells whether realloc succeeds, should it be called. */
  function Write(fs: Fs, ino: nat, data: seq<byte>, off: nat, mem: bool): (Fs, Reply) {
    if Gone(fs, ino) then (fs, Error(ENOENT)) else
    var n := At(fs, ino);
    if !n.body.FileBody? then (fs, Error(NoData(n.body)))
    else
      var grow := off + |data| > 512 * n.h.blocks;
      if grow && !HasSpaceFor(fs.stat, n.h.blocks, n.h.size, off + |data| - n.h.size) then (fs, Error(ENOSPC))
      else if grow && !mem then (fs, Wrote(0))
      else (SetData(fs, ino, Overwrite(n.body.data, data, off)), Wrote(|data|))
  }

  function Truncate(fs: Fs, ino: nat, size: nat, mem: bool): (Fs, Reply) {
    if Gone(fs, ino) then (fs, Error(ENOENT)) else
    var n := At(fs, ino);
    if !n.body.FileBody? then (fs, Error(if IsDirMode(n.h.mode) then EISDIR else EINVAL))
    else if !HasSpaceFor(fs.stat, n.h.blocks, n.h.size, size - n.h.size) then (fs, Negated(ENOSPC))
    else if NBlocks(size) != n.h.blocks && NBlocks(size) > 0 && !mem then (fs, Error(EINVAL))
    else (SetData(fs, ino, Resized(n.body.data, size)), Done)
  }

  function Read(fs: Fs, ino: nat, size: nat, off: nat): Reply {
    if Gone(fs, ino) then Error(ENOENT) else
    var n := At(fs, ino);
    if !n.body.FileBody? then Error(NoData(n.body))
    else if off > |n.body.data| then Bytes([])
    else if off + size > |n.body.data| then Bytes(n.body.data[off..])
    else Bytes(n.body.data[off..off + size])
  }

  function SetAttr(fs: Fs, ino: nat, mode: nat, meta: seq<byte>): (Fs, Reply) {
    if Gone(fs, ino) then (fs, Error(ENOENT))
    else (SetHead(fs, ino, At(fs, ino).h.(mode := mode, meta := meta)), Done)
  }

  // ------------------------------------------------------- checkpoint and pool

  /** Class and mode agree, as the dynamic_casts of the copy loops demand. */
  predicate Castable(n: Node) {
    if IsReg(n.h.mode) then n.body.FileBody?
    else if IsDirMode(n.h.mode) then n.body.DirBody?
    else if IsLnk(n.h.mode) then n.body.LinkBody?
    else n.body.SpecialBody?
  }

  predicate Copyable(fs: Fs) {
    forall i :: 0 <= i < |fs.nodes| ==> fs.nodes[i].None? || Castable(fs.nodes[i].value)
  }

  function Checkpoint(st: State, key: nat): (State, Reply) {
    if !Copyable(st.live) then (st, Error(EBADF))
    else if key in st.pool then (st, Error(EEXIST))
    else (st.(pool := st.pool[key := st.live]), Done)
  }

  function Restore(st: State, key: nat): (State, Reply) {
    if key !in st.pool || (st.pool[key].nodes == [] && st.pool[key].deleted == []) then (st, Error(ENOENT))
    else if !Copyable(st.pool[key]) then (st, Error(EBADF))
    else (State(st.pool[key], st.pool - {key}), Done)
  }

  // ----------------------------------------------------------------- dispatch

  datatype Op =
    | LookupOp(p: nat, name: Name)
    | MknodOp(p: nat, name: Name, mode: nat, meta: seq<byte>)
    | MkdirOp(p: nat, name: Name, mode: nat, meta: seq<byte>)
    | SymlinkOp(target: seq<byte>, p: nat, name: Name, meta: seq<byte>)
    | CreateOp(p: nat, name: Name, mode: nat, meta: seq<byte>)
    | UnlinkOp(p: nat, name: Name)
    | RmdirOp(p: nat, name: Name)
    | RenameOp(p: nat, name: Name, np: nat, newname: Name)
    | LinkOp(ino: nat, np: nat, newname: Name)
    | ForgetOp(ino: nat, n: nat)
    | WriteOp(ino: nat, data: seq<byte>, off: nat, mem: bool)
    | TruncateOp(ino: nat, size: nat, mem: bool)
    | ReadOp(ino: nat, size: nat, off: nat)
    | SetAttrOp(ino: nat, mode: nat, meta: seq<byte>)
    | CheckpointOp(key: nat)
    | RestoreOp(key: nat)

  predicate IsCreate(op: Op) {
    op.MknodOp? || op.MkdirOp? || op.SymlinkOp? || op.CreateOp?
  }

  /** The mode and link text a create request hands to do_create_node. */
  function CreateMode(op: Op): nat
    requires IsCreate(op)
  {
    match op
    case MknodOp(_, _, mode, _) => mode
    case MkdirOp(_, _, mode, _) => OrBit(mode, S_IFDIR)
    case CreateOp(_, _, mode, _) => OrBit(mode, S_IFREG)
    case SymlinkOp(_, _, _, _) => SYMLINK_MODE
  }

  function CreateLink(op: Op): Option<seq<byte>> {
    if op.SymlinkOp? then Some(op.target) else None
  }

  /** Every request but the two that touch the pool. */
  function FsStep(fs: Fs, op: Op): (Fs, Reply)
    requires !op.CheckpointOp? && !op.RestoreOp?
  {
    match op
    case LookupOp(p, name) => Lookup(fs, p, name)
    case MknodOp(p, name, mode, meta) => Mknod(fs, p, name, mode, meta)
    case MkdirOp(p, name, mode, meta) => Mknod(fs, p, name, OrBit(mode, S_IFDIR), meta)
    case SymlinkOp(target, p, name, meta) => Symlink(fs, target, p, name, meta)
    case CreateOp(p, name, mode, meta) => Create(fs, p, name, mode, meta)
    case UnlinkOp(p, name) => Unlink(fs, p, name)
    case RmdirOp(p, name) => Rmdir(fs, p, name)
    case RenameOp(p, name, np, newname) => Rename(fs, p, name, np, newname)
    case LinkOp(ino, np, newname) => Link(fs, ino, np, newname)
    case ForgetOp(ino, n) => (Forget(fs, ino, n), Done)
    case WriteOp(ino, data, off, mem) => Write(fs, ino, data, off, mem)
    case TruncateOp(ino, size, mem) => Truncate(fs, ino, size, mem)
    case ReadOp(ino, size, off) => (fs, Read(fs, ino, size, off))
    case SetAttrOp(ino, mode, meta) => SetAttr(fs, ino, mode, meta)
  }

  function Step(st: State, op: Op): (State, Reply) {
    if op.CheckpointOp? then Checkpoint(st, op.key)
    else if op.RestoreOp? then Restore(st, op.key)
    else var (fs, r) := FsStep(st.live, op); (st.(live := fs), r)
  }

  // ------------------------------------------------------------ initialisation

  /** The mount options main accepts; it exits for less than 1 KB or two inodes. */
  predicate Mountable(capacity: word, inodes: word) {
    (capacity == 0 || capacity >= 1024) && (inodes == 0 || inodes >= 2)
  }

  /** The file system of a mount. */
  function Mounted(capacity: word, inodes: word, fixed: seq<byte>, rootMode: nat, meta: seq<byte>): Fs {
    Init(capacity / 512, inodes, fixed, rootMode, meta)
  }

  /** The constructor's defaults for zero arguments. */
  function Sized(blocks: word, files: word, fixed: seq<byte>): Stat {
    var b := if blocks == 0 then 8388608 else blocks;
    var f := if files == 0 then 1048576 else files;
    Stat(b, b, b, f, f, f, fixed)
  }

  /** FuseInit: the placeholder inode 0 and the root directory, inode 1. */
  function Init(blocks: word, files: word, fixed: seq<byte>, rootMode: nat, meta: seq<byte>): Fs {
    var f0 := Register(Fs([], [], Sized(blocks, files, fixed)), 0, 0, meta, SpecialBody(0));
    var f1 := Register(f0, S_IFDIR + rootMode % 512, 2, meta, DirBody([]));
    AddDots(f1, 1, 1)
  }
}
