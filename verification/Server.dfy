/** The server: the static inode table, free queue and checkpoint pool of FuseRamFs,
    refining the value model through the ghost field st. */
module Server {
  import opened Base
  import opened Model
  import opened Graph
  import opened Invariant
  import opened Namespace
  import opened Runs
  import opened Laws
  import opened Accounting
  import opened Slots
  import opened Names
  import opened Objects

  /** One pooled verifs2_state: its own inode objects, queue and counters. */
  datatype Saved = Saved(files: seq<Inode?>, deleted: seq<nat>, stat: Stat)

  /** One decrement does not change where the draining loop ends. */
  lemma {:induction false} DrainStep(n: word)
    ensures NumLinks(n) > 0 ==> NumLinks(Wrap(n - 1)) == NumLinks(n) - 1 && Drained(Wrap(n - 1)) == Drained(n)
    ensures NumLinks(n) <= 0 ==> Drained(n) == n
  {
    if NumLinks(n) > 0 {
      var low, high := n % 0x1_0000_0000, n / 0x1_0000_0000;
      assert n - 1 == high * 0x1_0000_0000 + (low - 1);
      assert (n - 1) % 0x1_0000_0000 == low - 1;
      assert Wrap(n - 1) == n - 1;
    }
  }

  class RamFs {
    var inodes: seq<Inode?>
    var deleted: seq<nat>
    const stbuf: Counters
    var pool: map<nat, Saved>

    ghost var st: State
    /** All inode objects and buffers, live and pooled. */
    ghost var repr: set<object>
    /** The one inode each buffer belongs to. */
    ghost var owner: map<array<byte>, Inode>

    /** The objects of one table hold the values of one table, each in its own slot
        and with a buffer of its own. */
    ghost predicate Tied(files: seq<Inode?>, nodes: seq<Option<Node>>, key: Option<nat>)
      reads *
    {
      && |files| == |nodes|
      && (forall i :: 0 <= i < |files| ==> (files[i] == null <==> nodes[i].None?))
      && (forall i :: 0 <= i < |files| && files[i] != null ==> TiedAt(files[i], nodes[i].value, Home(key, i)))
    }

    ghost predicate TiedAt(x: Inode, n: Node, home: Home)
      reads this`repr, this`owner, x, if x.p.FileP? then {x.p.buf} else {}
    {
      && x in repr && x.home == home
      && x.Valid() && x.View() == n
      && (x.p.FileP? ==> x.p.buf in repr && x.p.buf in owner && owner[x.p.buf] == x)
    }

    /** The objects hold st; no two tables or slots share an object or a buffer. */
    ghost predicate Valid()
      reads *
    {
      && stbuf.v == st.live.stat && deleted == st.live.deleted && stbuf !in repr && this !in repr
      && Tied(inodes, st.live.nodes, None)
      && pool.Keys == st.pool.Keys
      && forall k :: k in pool ==>
           && Tied(pool[k].files, st.pool[k].nodes, Some(k))
           && pool[k].deleted == st.pool[k].deleted && pool[k].stat == st.pool[k].stat
    }

    /** Isolation, once and for all: when slot d alone has changed, and no object
        outside it has been written, the other slots and all snapshots still hold. */
    twostate lemma Reframe(d: nat)
      requires old(Valid()) && d <= |old(inodes)| && d < |inodes|
      requires inodes == if d < |old(inodes)| then old(inodes)[d := inodes[d]] else old(inodes) + [inodes[d]]
      requires |st.live.nodes| == |inodes| && st.live.nodes == PutSlot(old(st).live.nodes, d, st.live.nodes[d])
      requires inodes[d] == null <==> st.live.nodes[d].None?
      requires inodes[d] != null ==> TiedAt(inodes[d], st.live.nodes[d].value, Home(None, d))
      requires pool == old(pool) && st.pool == old(st).pool
      requires stbuf.v == st.live.stat && deleted == st.live.deleted && stbuf !in repr && this !in repr
      requires old(repr) <= repr && forall b :: b in old(owner) ==> b in owner && owner[b] == old(owner)[b]
      requires forall o :: o in old(repr) ==> unchanged(o) || (d < |old(inodes)| && Touches(d, o))
      ensures Valid()
    {
      forall i | 0 <= i < |inodes| && i != d && inodes[i] != null
        ensures TiedAt(inodes[i], st.live.nodes[i].value, Home(None, i))
      {
        Kept(inodes[i], st.live.nodes[i].value, Home(None, i), d);
      }
      forall k, i | k in pool && 0 <= i < |pool[k].files| && pool[k].files[i] != null
        ensures TiedAt(pool[k].files[i], st.pool[k].nodes[i].value, Home(Some(k), i))
      {
        Kept(pool[k].files[i], st.pool[k].nodes[i].value, Home(Some(k), i), d);
      }
    }

    /** The same for a file whose buffer may have been replaced by a new one. */
    twostate lemma FileReframe(d: nat)
      requires old(Valid()) && inodes == old(inodes) && d < |inodes| && inodes[d] != null && old(inodes[d].p.FileP?)
      requires inodes[d].Valid() && inodes[d].p.FileP? && inodes[d].home == old(inodes[d].home)
      requires inodes[d].p.buf == old(inodes[d].p.buf) || fresh(inodes[d].p.buf)
      requires repr == old(repr) + {inodes[d].p.buf} && owner == old(owner)[inodes[d].p.buf := inodes[d]]
      requires st.live.nodes == old(st).live.nodes[d := Some(inodes[d].View())]
      requires pool == old(pool) && st.pool == old(st).pool
      requires stbuf.v == st.live.stat && deleted == st.live.deleted
      requires forall o :: o in old(repr) ==> unchanged(o) || o == inodes[d] || o == old(inodes[d].p.buf)
      ensures Valid()
    {
      hide Tied;
      WasTied(d);
      Reframe(d);
    }

    twostate lemma WasTied(d: nat)
      requires old(Valid()) && d < |old(inodes)| && old(inodes)[d] != null
      ensures d < |old(st).live.nodes| && old(st).live.nodes[d].Some?
      ensures old(TiedAt(inodes[d], st.live.nodes[d].value, Home(None, d)))
      ensures old(stbuf !in repr && this !in repr)
      ensures |old(inodes)| == |old(st).live.nodes|
    {
    }

    /** o was the inode of slot d or its buffer. */
    twostate predicate Touches(d: nat, o: object)
      requires d < |old(inodes)|
      reads *
    {
      old(inodes)[d] != null && (o == old(inodes)[d] || old(inodes[d].p.FileP? && o == inodes[d].p.buf))
    }

    twostate lemma Kept(x: Inode, new n: Node, new home: Home, new d: nat)
      requires old(Valid()) && old(TiedAt(x, n, home)) && home != Home(None, d)
      requires old(repr) <= repr && forall b :: b in old(owner) ==> b in owner && owner[b] == old(owner)[b]
      requires forall o :: o in old(repr) ==> unchanged(o) || (d < |old(inodes)| && Touches(d, o))
      ensures TiedAt(x, n, home)
    {
      if d < |old(inodes)| && old(inodes)[d] != null {
        assert old(TiedAt(inodes[d], st.live.nodes[d].value, Home(None, d)));
      }
      assert unchanged(x);
      assert x.p.FileP? ==> unchanged(x.p.buf);
    }

    /** What Valid says about one slot. */
    lemma {:induction false} Slot(d: nat)
      requires Valid()
      ensures |inodes| == |st.live.nodes| && deleted == st.live.deleted
      ensures stbuf.v == st.live.stat && stbuf !in repr && this !in repr
      ensures d < |inodes| ==> (inodes[d] == null <==> st.live.nodes[d].None?)
      ensures Live(st.live, d) ==> d < |inodes| && inodes[d] != null && TiedAt(inodes[d], At(st.live, d), Home(None, d))
    {
    }

    // -------------------------------------------------- table, queue and counters

    /** PopOneDeletedInode and UpdateInode, or AddInode when the queue is empty. */
    method TakeSlot(x: Inode) returns (ino: nat)
      requires deleted != [] ==> deleted[0] < |inodes|
      modifies this`inodes, this`deleted
      ensures ino == if old(deleted) == [] then |old(inodes)| else old(deleted)[0]
      ensures inodes == if ino < |old(inodes)| then old(inodes)[ino := x] else old(inodes) + [x]
      ensures deleted == if old(deleted) == [] then [] else old(deleted)[1..]
    {
      if deleted == [] {
        inodes := inodes + [x];
        return |inodes| - 1;
      }
      ino := deleted[0];
      deleted := deleted[1..];
      inodes := inodes[ino := x];
    }

    /** Slot, counters and attributes of a new object. */
    method PlaceInode(x: Inode, mode: nat, nlink: word, meta: seq<byte>) returns (ino: nat)
      requires deleted != [] ==> deleted[0] < |inodes|
      requires x.Valid() && (x.p.FileP? ==> x.p.buf.Length == 0)
      modifies this`inodes, this`deleted, x, stbuf
      ensures ino == if old(deleted) == [] then |old(inodes)| else old(deleted)[0]
      ensures inodes == if ino < |old(inodes)| then old(inodes)[ino := x] else old(inodes) + [x]
      ensures deleted == if old(deleted) == [] then [] else old(deleted)[1..]
      ensures x.Valid() && x.p == old(x.p) && x.home == Home(None, ino)
      ensures x.View() == Fresh(ino, mode, nlink, meta, old(x.View()).body)
      ensures stbuf.v == UseBlocks(if x.p.DirP? then UseBlocks(UseInodes(old(stbuf.v), 1), 1)
                                   else UseInodes(old(stbuf.v), 1), x.h.blocks)
    {
      hide Wrap, NBlocks, UseBlocks, UseInodes;
      ino := TakeSlot(x);
      stbuf.UpdateUsedInodes(1);
      x.Initialize(stbuf, ino, mode, nlink, meta);
      stbuf.UpdateUsedBlocks(x.h.blocks);
      x.home := Home(None, ino);
    }

    /** Initial slot contents: a fresh object enters the table through here. */
    method RegisterInode(x: Inode, mode: nat, nlink: word, meta: seq<byte>) returns (ino: nat)
      requires Valid() && (deleted != [] ==> deleted[0] < |inodes|)
      requires x !in repr && x.Valid()
      requires x.p.FileP? ==> x.p.buf !in repr && x.p.buf !in owner && x.p.buf.Length == 0
      modifies this`inodes, this`deleted, this`st, this`repr, this`owner, x, stbuf
      ensures Valid() && pool == old(pool)
      ensures repr == old(repr) + {x} + (if x.p.FileP? then {x.p.buf} else {})
      ensures inodes == if ino < |old(inodes)| then old(inodes)[ino := x] else old(inodes) + [x]
      ensures ino == NextSlot(old(st).live) && ino < |inodes| && inodes[ino] == x && x.p == old(x.p)
      ensures st == old(st).(live := Register(old(st).live, mode, nlink, meta, old(x.View()).body))
    {
      hide Valid, Tied, Wrap, NBlocks, UseBlocks, UseInodes, Register;
      Slot(NextSlot(st.live));
      ghost var before, body := st.live, x.View().body;
      RegisterShape(before, mode, nlink, meta, body);
      ino := PlaceInode(x, mode, nlink, meta);
      repr := repr + {x} + (if x.p.FileP? then {x.p.buf} else {});
      owner := if x.p.FileP? then owner[x.p.buf := x] else owner;
      st := st.(live := Register(before, mode, nlink, meta, body));
      Reframe(ino);
    }

    method DeleteInode(ino: nat)
      requires Valid() && ino < |inodes|
      modifies this`inodes, this`deleted, this`st
      ensures Valid() && st == old(st).(live := Model.DeleteInode(old(st).live, ino))
    {
      inodes := inodes[ino := null];
      deleted := deleted + [ino];
      st := st.(live := Model.DeleteInode(st.live, ino));
    }

    method UpdateUsed(blocks: int, files: int)
      requires Valid()
      modifies this`st, stbuf
      ensures Valid()
      ensures st == old(st).(live := old(st).live.(stat := UseBlocks(UseInodes(old(st).live.stat, files), blocks)))
    {
      hide Valid, Tied, Wrap;
      Slot(0);
      stbuf.UpdateUsedInodes(files);
      stbuf.UpdateUsedBlocks(blocks);
      st := st.(live := st.live.(stat := stbuf.v));
      Recounted();
    }

    // -------------------------------------------------- steps on one inode object

    method AddChild(d: nat, name: Name, ino: nat) returns (ret: Errno)
      requires Valid() && IsDir(st.live, d)
      modifies this`st, inodes[d], stbuf
      ensures Valid()
      ensures st == old(st).(live := Model.AddChild(old(st).live, d, name, ino).0)
      ensures ret == Model.AddChild(old(st).live, d, name, ino).1
    {
      hide Valid, Tied, Wrap, NBlocks, UseBlocks;
      Slot(d);
      ret := inodes[d].AddChild(stbuf, name, ino);
      st := st.(live := Model.AddChild(st.live, d, name, ino).0);
      Reframe(d);
    }

    method UpdateChild(d: nat, name: Name, ino: nat)
      requires Valid() && IsDir(st.live, d)
      modifies this`st, inodes[d]
      ensures Valid()
      ensures st == old(st).(live := Model.UpdateChild(old(st).live, d, name, ino))
    {
      hide Valid, Tied, Wrap, NBlocks, UseBlocks;
      Slot(d);
      inodes[d].UpdateChild(name, ino);
      st := st.(live := Model.UpdateChild(st.live, d, name, ino));
      Reframe(d);
    }

    method RemoveChild(d: nat, name: Name)
      requires Valid() && IsDir(st.live, d)
      requires Find(Children(st.live, d), name) < |Children(st.live, d)| ==> Cost(name) <= At(st.live, d).h.size
      modifies this`st, inodes[d], stbuf
      ensures Valid()
      ensures st == old(st).(live := Model.RemoveChild(old(st).live, d, name))
    {
      hide Valid, Tied, Wrap, NBlocks, UseBlocks;
      Slot(d);
      inodes[d].RemoveChild(stbuf, name);
      st := st.(live := Model.RemoveChild(st.live, d, name));
      Reframe(d);
    }

    /** IncrementLinkCount and DecrementLinkCount. */
    method AddLink(i: nat, n: int)
      requires Valid() && Live(st.live, i)
      modifies this`st, inodes[i]
      ensures Valid() && st == old(st).(live := AddLinks(old(st).live, i, n))
    {
      hide Valid, Tied, Wrap;
      Slot(i);
      inodes[i].h := inodes[i].h.(nlink := Wrap(inodes[i].h.nlink + n));
      st := st.(live := AddLinks(st.live, i, n));
      Reframe(i);
    }

    /** The counting half of ReplyEntry, ReplyCreate and Inode::Forget. */
    method AddLookup(i: nat, n: int)
      requires Valid() && Live(st.live, i)
      modifies this`st, inodes[i]
      ensures Valid() && st == old(st).(live := AddLookups(old(st).live, i, n))
    {
      hide Valid, Tied, Wrap;
      Slot(i);
      inodes[i].h := inodes[i].h.(nlookup := Wrap(inodes[i].h.nlookup + n));
      st := st.(live := AddLookups(st.live, i, n));
      Reframe(i);
    }

    constructor (blocks: word, files: word, fixed: seq<byte>)
      ensures Valid() && fresh(repr) && fresh(stbuf)
      ensures st == State(Fs([], [], Sized(blocks, files, fixed)), map[])
    {
      inodes, deleted, pool := [], [], map[];
      stbuf := new Counters(blocks, files, fixed);
      st := State(Fs([], [], Sized(blocks, files, fixed)), map[]);
      repr, owner := {}, map[];
    }

    method FuseInit(ghost blocks: word, ghost files: word, ghost fixed: seq<byte>, rootMode: nat, meta: seq<byte>)
      requires Valid() && st == State(Fs([], [], Sized(blocks, files, fixed)), map[])
      modifies this, stbuf
      ensures Valid() && fresh(repr - old(repr))
      ensures st == State(Init(blocks, files, fixed, rootMode, meta), map[]) && StateOk(st) && StateSafe(st)
    {
      hide Valid, Tied, NBlocks, UseBlocks, UseInodes, FsOk, Safe, Model.AddChild, Sized;
      var zero := new Inode(SpecialBody(0));
      Slot(0);
      var i0 := RegisterInode(zero, 0, 0, meta);
      Slot(0);
      var root := new Inode(DirBody([]));
      var i1 := RegisterInode(root, S_IFDIR + rootMode % 512, 2, meta);
      StillDir(st.live, i1, DOT, i1);
      var r1 := AddChild(i1, DOT, i1);
      var r2 := AddChild(i1, DOTDOT, i1);
      InitOk(blocks, files, fixed, rootMode, meta);
      InitSafe(blocks, files, fixed, rootMode, meta);
    }

    // ------------------------------------------------------------------ reading

    /** The test every request starts with: null slot or no links. */
    method IsGone(i: nat) returns (gone: bool)
      requires Valid()
      ensures gone == Gone(st.live, i)
    {
      Slot(i);
      hide Valid, Tied;
      gone := i >= |inodes| || inodes[i] == null || inodes[i].h.nlink == 0;
    }

    method CheckParent(p: nat) returns (e: Errno)
      requires Valid()
      ensures e == Model.CheckParent(st.live, p)
    {
      var gone := IsGone(p);
      Slot(p);
      hide Valid, Tied;
      if gone {
        return ENOENT;
      }
      e := if inodes[p].p.DirP? then OK else ENOTDIR;
    }

    method LookUp(d: nat, name: Name) returns (ino: nat)
      requires Valid() && IsDir(st.live, d)
      ensures ino == ChildIno(Children(st.live, d), name)
    {
      Slot(d);
      hide Valid, Tied;
      ino := inodes[d].ChildInodeNumber(name);
    }

    /** Directory::IsEmpty. */
    method DirIsEmpty(d: nat) returns (empty: bool)
      requires Valid() && IsDir(st.live, d)
      ensures empty == IsEmpty(st.live, Children(st.live, d))
    {
      Slot(d);
      hide Valid, Tied;
      var es := inodes[d].p.children;
      for i := 0 to |es|
        invariant forall j :: 0 <= j < i && !Dot(es[j].name) ==> Gone(st.live, es[j].ino)
      {
        if Dot(es[i].name) {
          continue;
        }
        var gone := IsGone(es[i].ino);
        if !gone {
          return false;
        }
      }
      return true;
    }

    // ------------------------------------------------------------ lookup and link

    method FuseLookup(parent: nat, name: Name) returns (r: Reply)
      requires Valid()
      modifies this, stbuf, repr
      ensures Valid() && fresh(repr - old(repr)) && (st, r) == Step(old(st), LookupOp(parent, name))
    {
      hide Valid, Tied;
      var e := CheckParent(parent);
      if e != OK {
        return Error(e);
      }
      var ino := LookUp(parent, name);
      if ino == 0 {
        return Error(ENOENT);
      }
      var gone := IsGone(ino);
      if gone {
        return Error(ENOENT);
      }
      Slot(ino);
      AddLookup(ino, 1);
      return EntryOf(ino);
    }

    method FuseLink(ino: nat, newparent: nat, newname: Name) returns (r: Reply)
      requires Valid()
      modifies this, stbuf, repr
      ensures Valid() && fresh(repr - old(repr)) && (st, r) == Step(old(st), LinkOp(ino, newparent, newname))
    {
      hide Valid, Tied, NBlocks, UseBlocks;
      var gone := IsGone(ino);
      if gone {
        return Error(ENOENT);
      }
      var e := CheckParent(newparent);
      if e != OK {
        return Error(e);
      }
      var existing := LookUp(newparent, newname);
      if existing != 0 {
        return Error(EEXIST);
      }
      Slot(newparent);
      Slot(ino);
      var ret := AddChild(newparent, newname, ino);
      if ret != OK {
        return Error(ret);
      }
      AddLink(ino, 1);
      AddLookup(ino, 1);
      return EntryOf(ino);
    }

    // ----------------------------------------------------------- unlink and rmdir

    method FuseUnlink(parent: nat, name: Name) returns (r: Reply)
      requires Valid() && Lawful(st.live)
      requires IsDir(st.live, parent) ==>
                 var ino := ChildIno(Children(st.live, parent), name); ino == 0 || Live(st.live, ino)
      modifies this, stbuf, repr
      ensures Valid() && fresh(repr - old(repr)) && (st, r) == Step(old(st), UnlinkOp(parent, name))
    {
      hide Valid, Tied, NBlocks, UseBlocks, Lawful;
      var e := CheckParent(parent);
      if e != OK {
        return Error(e);
      }
      var ino := LookUp(parent, name);
      if ino == 0 {
        return Error(ENOENT);
      }
      NoNegativeSize(st.live, parent, name);
      Slot(parent);
      Slot(ino);
      RemoveChild(parent, name);
      assert inodes[ino] != null;
      AddLink(ino, -1);
      return Done;
    }

    /** while (NumLinks() > 0) DecrementLinkCount(). */
    method DrainLinks(i: nat)
      requires Valid() && Live(st.live, i)
      modifies this`st, inodes[i]
      ensures Valid()
      ensures var h := At(old(st).live, i).h;
              st == old(st).(live := SetHead(old(st).live, i, h.(nlink := Drained(h.nlink))))
    {
      hide Valid, Tied, NumLinks, Drained, Wrap;
      Slot(i);
      var x := inodes[i];
      ghost var h0 := x.h;
      while NumLinks(x.h.nlink) > 0
        modifies x
        invariant x.h == h0.(nlink := x.h.nlink) && Drained(x.h.nlink) == Drained(h0.nlink)
        invariant x.p == old(inodes[i].p) && x.home == old(inodes[i].home)
        decreases NumLinks(x.h.nlink)
      {
        DrainStep(x.h.nlink);
        x.h := x.h.(nlink := Wrap(x.h.nlink - 1));
      }
      DrainStep(x.h.nlink);
      st := st.(live := SetHead(st.live, i, x.h));
      Reframe(i);
    }

    method FuseRmdir(parent: nat, name: Name) returns (r: Reply)
      requires Valid() && Lawful(st.live)
      modifies this, stbuf, repr
      ensures Valid() && fresh(repr - old(repr)) && (st, r) == Step(old(st), RmdirOp(parent, name))
    {
      hide Valid, Tied, NBlocks, UseBlocks, Lawful, Drained;
      var e := CheckParent(parent);
      if e != OK {
        return Error(e);
      }
      var ino := LookUp(parent, name);
      if ino == 0 {
        return Error(ENOENT);
      }
      if ino == parent {
        return Error(EINVAL);
      }
      var gone := IsGone(ino);
      if gone {
        return Error(ENOENT);
      }
      Slot(ino);
      if !inodes[ino].p.DirP? {
        return Error(ENOTDIR);
      }
      var empty := DirIsEmpty(ino);
      if !empty {
        return Error(ENOTEMPTY);
      }
      NoNegativeSize(st.live, parent, name);
      Slot(parent);
      RemoveChild(parent, name);
      AddLink(parent, -1);
      DrainLinks(ino);
      return Done;
    }

    // ---------------------------------------------------------------------- forget

    method FuseForget(ino: nat, n: nat) returns (r: Reply)
      requires Valid()
      modifies this, stbuf, repr
      ensures Valid() && fresh(repr - old(repr)) && (st, r) == Step(old(st), ForgetOp(ino, n))
    {
      r := Done;
      hide Valid, Tied, UseInodes, UseBlocks, Wrap;
      Slot(ino);
      if ino >= |inodes| || inodes[ino] == null {
        return;
      }
      AddLookup(ino, 0 - n);
      Slot(ino);
      if inodes[ino].h.nlookup == 0 && inodes[ino].h.nlink == 0 {
        var blocksFreed: int := inodes[ino].h.blocks;
        DeleteInode(ino);
        UpdateUsed(0 - blocksFreed, -1);
      }
    }

    // ---------------------------------------------------------------------- create

    /** The first half of do_create_node: a new object, registered, with "." and "..". */
    method PrepareNode(parent: nat, mode: nat, body: Body, meta: seq<byte>) returns (ino: nat)
      requires Valid() && SlotsOk(st.live) && Live(st.live, parent)
      requires (body.FileBody? ==> body.data == []) && (body.DirBody? ==> body == DirBody([]))
      modifies this, stbuf
      ensures Valid() && fresh(repr - old(repr)) && ino == NextSlot(old(st).live)
      ensures parent < |inodes| && inodes[parent] == old(inodes[parent])
      ensures ino < |inodes| && fresh(inodes[ino])
      ensures st == old(st).(live := Prepared(old(st).live, parent, mode, body, meta))
    {
      hide Valid, Tied, NBlocks, UseBlocks, UseInodes;
      var node := new Inode(body);
      FreeHead(st.live);
      Slot(NextSlot(st.live));
      Slot(parent);
      var dotdot := inodes[parent].h.ino;
      ino := RegisterInode(node, mode, if body.DirBody? then 2 else 1, meta);
      if body.DirBody? {
        var r1 := AddChild(ino, DOT, ino);
        var r2 := AddChild(ino, DOTDOT, dotdot);
      }
    }

    /** do_create_node. */
    method DoCreateNode(parent: nat, name: Name, mode: nat, link: Option<seq<byte>>, meta: seq<byte>) returns (r: Reply)
      requires Valid() && SlotsOk(st.live) && IsDir(st.live, parent)
      modifies this, stbuf, repr
      ensures Valid() && fresh(repr - old(repr))
      ensures (st.live, r) == Model.DoCreateNode(old(st).live, parent, name, mode, link, meta)
      ensures st.pool == old(st).pool
    {
      hide Valid, Tied, NBlocks, UseBlocks, UseInodes, TableOk, LinksOk, TreeOk, Prepared;
      var body := NewBody(mode, link);
      if body.None? {
        return Error(EINVAL);
      }
      Slot(parent);
      if stbuf.v.ffree == 0 {
        return Error(ENOSPC);
      }
      FreeHead(st.live);
      PreparedShape(st.live, parent, mode, body.value, meta);
      var ino := PrepareNode(parent, mode, body.value, meta);
      var ret := AddChild(parent, name, ino);
      Slot(ino);
      if ret != OK {
        UpdateUsed(inodes[ino].h.blocks, -1);
        DeleteInode(ino);
        return Error(ret);
      }
      if body.value.DirBody? {
        AddLink(parent, 1);
      }
      return EntryOf(ino);
    }

    /** FuseMknod; FuseMkdir calls it with the directory bit or-ed in. */
    method FuseMknod(parent: nat, name: Name, mode: nat, meta: seq<byte>) returns (r: Reply)
      requires Valid() && SlotsOk(st.live)
      modifies this, stbuf, repr
      ensures Valid() && fresh(repr - old(repr)) && (st, r) == Step(old(st), MknodOp(parent, name, mode, meta))
    {
      hide Valid, Tied, SlotsOk, Model.DoCreateNode, AddLookups;
      var e := CheckParent(parent);
      if e != OK {
        return Error(e);
      }
      Slot(parent);
      if stbuf.v.ffree == 0 {
        return Error(ENOSPC);
      }
      var existing := LookUp(parent, name);
      if existing != 0 {
        return Error(EEXIST);
      }
      r := CreateAndReply(parent, name, mode, None, meta);
    }

    method FuseMkdir(parent: nat, name: Name, mode: nat, meta: seq<byte>) returns (r: Reply)
      requires Valid() && SlotsOk(st.live)
      modifies this, stbuf, repr
      ensures Valid() && fresh(repr - old(repr)) && (st, r) == Step(old(st), MkdirOp(parent, name, mode, meta))
    {
      hide Mknod, Valid, SlotsOk;
      r := FuseMknod(parent, name, OrBit(mode, S_IFDIR), meta);
    }

    method FuseSymlink(target: seq<byte>, parent: nat, name: Name, meta: seq<byte>) returns (r: Reply)
      requires Valid() && SlotsOk(st.live)
      modifies this, stbuf, repr
      ensures Valid() && fresh(repr - old(repr)) && (st, r) == Step(old(st), SymlinkOp(target, parent, name, meta))
    {
      hide Valid, Tied, SlotsOk, Model.DoCreateNode, AddLookups;
      var e := CheckParent(parent);
      if e != OK {
        return Error(e);
      }
      Slot(parent);
      // the first answer is the one the client gets, but the request goes on
      var room := stbuf.CheckHasSpaceFor(0, 0, if |name| < PATH_MAX then |name| else PATH_MAX);
      var refused := !room || stbuf.v.ffree == 0;
      var existing := LookUp(parent, name);
      if existing != 0 {
        return Error(if refused then ENOSPC else EEXIST);
      }
      r := CreateAndReply(parent, name, SYMLINK_MODE, Some(target), meta);
      if refused {
        r := Error(ENOSPC);
      }
    }

    method FuseCreate(parent: nat, name: Name, mode: nat, meta: seq<byte>) returns (r: Reply)
      requires Valid() && SlotsOk(st.live)
      modifies this, stbuf, repr
      ensures Valid() && fresh(repr - old(repr)) && (st, r) == Step(old(st), CreateOp(parent, name, mode, meta))
    {
      hide Valid, Tied, SlotsOk, Model.DoCreateNode, AddLookups;
      var e := CheckParent(parent);
      if e != OK {
        return Error(e);
      }
      r := CreateAndReply(parent, name, OrBit(mode, S_IFREG), None, meta);
    }

    /** do_create_node and the reply, as every create request ends. */
    method CreateAndReply(parent: nat, name: Name, mode: nat, link: Option<seq<byte>>, meta: seq<byte>)
      returns (r: Reply)
      requires Valid() && SlotsOk(st.live) && IsDir(st.live, parent)
      modifies this, stbuf, repr
      ensures Valid() && fresh(repr - old(repr)) && st.pool == old(st).pool
      ensures (st.live, r) == ReplyNew(Model.DoCreateNode(old(st).live, parent, name, mode, link, meta))
    {
      CreatedIsLive(st.live, parent, name, mode, link, meta);
      hide Valid, Tied, SlotsOk, Model.DoCreateNode, AddLookups;
      r := DoCreateNode(parent, name, mode, link, meta);
      if r.EntryOf? {
        Slot(r.ino);
        AddLookup(r.ino, 1);
      }
    }

    // ---------------------------------------------------------------------- rename

    method FuseRename(parent: nat, name: Name, newparent: nat, newname: Name) returns (r: Reply)
      requires Valid() && Lawful(st.live)
      modifies this, stbuf, repr
      ensures Valid() && fresh(repr - old(repr)) && (st, r) == Step(old(st), RenameOp(parent, name, newparent, newname))
    {
      hide Valid, Tied, Lawful, Move, Replace, NumLinks;
      var gone := IsGone(parent);
      if gone {
        return Error(ENOENT);
      }
      gone := IsGone(newparent);
      if gone {
        return Error(ENOENT);
      }
      Slot(parent);
      Slot(newparent);
      if !inodes[parent].p.DirP? {
        return Error(ENOTDIR);
      }
      if !inodes[newparent].p.DirP? {
        return Error(ENOTDIR);
      }
      var src := LookUp(parent, name);
      gone := IsGone(src);
      if gone {
        return Error(ENOENT);
      }
      Slot(src);
      var dst := LookUp(newparent, newname);
      Slot(dst);
      if dst < |inodes| && inodes[dst] != null && NumLinks(inodes[dst].h.nlink) > 0 {
        var srcDir, dstDir := IsDirMode(inodes[src].h.mode), IsDirMode(inodes[dst].h.mode);
        if srcDir && !dstDir {
          return Error(ENOTDIR);
        }
        if dstDir {
          DirModeIsDir(st.live, dst);
          assert inodes[dst].p.DirP?;
          var empty := DirIsEmpty(dst);
          if !empty {
            return Error(ENOTEMPTY);
          }
        }
        if !srcDir && dstDir {
          return Error(EISDIR);
        }
        ReplaceEntry(parent, name, newparent, newname, src, dst);
        return Done;
      }
      MoveEntry(parent, name, newparent, newname, src);
      return Done;
    }

    /** The destination exists: rebind its name, drop the old one, settle the counts. */
    method ReplaceEntry(parent: nat, name: Name, newparent: nat, newname: Name, src: nat, dst: nat)
      requires Valid() && Lawful(st.live)
      requires IsDir(st.live, parent) && IsDir(st.live, newparent) && Live(st.live, dst)
      modifies this`st, repr, stbuf
      ensures Valid()
      ensures st == old(st).(live := Replace(old(st).live, parent, name, newparent, newname, src, dst))
    {
      hide Valid, Tied, Lawful, NBlocks, UseBlocks;
      Slot(parent);
      Slot(newparent);
      Slot(dst);
      LinksLawful(st.live, dst, -1);
      AddLink(dst, -1);
      UpdateLawful(st.live, newparent, newname, src);
      UpdateChild(newparent, newname, src);
      if Find(Children(st.live, parent), name) < |Children(st.live, parent)| {
        NoNegativeSize(st.live, parent, name);
      }
      RemoveChild(parent, name);
      Slot(dst);
      if IsDirMode(inodes[dst].h.mode) {
        AddLinksTwice(st.live, dst);
        AddLink(dst, -1);
        AddLink(dst, -1);
        AddLink(parent, -1);
      }
    }

    /** The destination does not exist; a failure to add the name goes unnoticed. */
    method MoveEntry(parent: nat, name: Name, newparent: nat, newname: Name, src: nat)
      requires Valid() && Lawful(st.live)
      requires IsDir(st.live, parent) && IsDir(st.live, newparent) && Live(st.live, src)
      modifies this`st, repr, stbuf
      ensures Valid()
      ensures st == old(st).(live := Move(old(st).live, parent, name, newparent, newname, src))
    {
      hide Valid, Tied, Lawful, NBlocks, UseBlocks;
      Slot(parent);
      Slot(newparent);
      Slot(src);
      AddLawful(st.live, newparent, newname, src);
      var ret := AddChild(newparent, newname, src);
      if Find(Children(st.live, parent), name) < |Children(st.live, parent)| {
        NoNegativeSize(st.live, parent, name);
      }
      RemoveChild(parent, name);
      Slot(src);
      if IsDirMode(inodes[src].h.mode) {
        AddLink(parent, -1);
        AddLink(newparent, 1);
      }
    }

    // --------------------------------------------------------------- file contents

    method FuseWrite(ino: nat, data: seq<byte>, off: nat, mem: bool) returns (r: Reply)
      requires Valid() && Lawful(st.live)
      modifies this, stbuf, repr
      ensures Valid() && fresh(repr - old(repr)) && (st, r) == Step(old(st), WriteOp(ino, data, off, mem))
    {
      hide Valid, Tied, Lawful, SetData, HasSpaceFor;
      var gone := IsGone(ino);
      if gone {
        return Error(ENOENT);
      }
      Slot(ino);
      var x := inodes[ino];
      if !x.p.FileP? {
        return Error(if x.p.SpecialP? then ENOENT else EISDIR);
      }
      FileBlocks(st.live, ino);
      r := WriteFile(ino, data, off, mem);
    }

    method WriteFile(ino: nat, data: seq<byte>, off: nat, mem: bool) returns (r: Reply)
      requires Valid() && IsFile(st.live, ino) && !Gone(st.live, ino)
      requires At(st.live, ino).h.blocks == NBlocks(At(st.live, ino).h.size)
      modifies this, stbuf, repr
      ensures Valid() && fresh(repr - old(repr))
      ensures (st.live, r) == Write(old(st).live, ino, data, off, mem) && st.pool == old(st).pool
    {
      hide Valid, Tied, NBlocks, UseBlocks, Overwrite, HasSpaceFor;
      Slot(ino);
      var x := inodes[ino];
      r := x.FileWrite(stbuf, data, off, mem);
      repr := repr + {x.p.buf};
      owner := owner[x.p.buf := x];
      st := st.(live := Write(st.live, ino, data, off, mem).0);
      FileReframe(ino);
    }

    /** FuseSetAttr with FUSE_SET_ATTR_SIZE. */
    method FuseTruncate(ino: nat, size: nat, mem: bool) returns (r: Reply)
      requires Valid() && Lawful(st.live)
      modifies this, stbuf, repr
      ensures Valid() && fresh(repr - old(repr)) && (st, r) == Step(old(st), TruncateOp(ino, size, mem))
    {
      hide Valid, Tied, Lawful, SetData, HasSpaceFor;
      var gone := IsGone(ino);
      if gone {
        return Error(ENOENT);
      }
      Slot(ino);
      var x := inodes[ino];
      if !x.p.FileP? {
        return Error(if IsDirMode(x.h.mode) then EISDIR else EINVAL);
      }
      FileBlocks(st.live, ino);
      r := TruncateFile(ino, size, mem);
    }

    method TruncateFile(ino: nat, size: nat, mem: bool) returns (r: Reply)
      requires Valid() && IsFile(st.live, ino) && !Gone(st.live, ino)
      requires At(st.live, ino).h.blocks == NBlocks(At(st.live, ino).h.size)
      modifies this, stbuf, repr
      ensures Valid() && fresh(repr - old(repr))
      ensures (st.live, r) == Truncate(old(st).live, ino, size, mem) && st.pool == old(st).pool
    {
      hide Valid, Tied, NBlocks, UseBlocks, Resized, HasSpaceFor;
      Slot(ino);
      var x := inodes[ino];
      var ret := x.FileTruncate(stbuf, size, mem);
      repr := repr + {x.p.buf};
      owner := owner[x.p.buf := x];
      // FileTruncate returns -ENOSPC but EINVAL, and both are passed on as they are
      r := if ret == OK then Done else if ret == ENOSPC then Negated(ret) else Error(ret);
      st := st.(live := Truncate(st.live, ino, size, mem).0);
      FileReframe(ino);
    }

    method FuseRead(ino: nat, size: nat, off: nat) returns (r: Reply)
      requires Valid()
      ensures (st, r) == Step(st, ReadOp(ino, size, off))
    {
      hide Valid, Tied;
      var gone := IsGone(ino);
      if gone {
        return Error(ENOENT);
      }
      Slot(ino);
      var x := inodes[ino];
      if !x.p.FileP? {
        return Error(if x.p.SpecialP? then ENOENT else EISDIR);
      }
      var bytes := x.FileRead(size, off);
      return Bytes(bytes);
    }

    /** FuseSetAttr without a size: ReplySetAttr. */
    method FuseSetAttr(ino: nat, mode: nat, meta: seq<byte>) returns (r: Reply)
      requires Valid()
      modifies this, stbuf, repr
      ensures Valid() && fresh(repr - old(repr)) && (st, r) == Step(old(st), SetAttrOp(ino, mode, meta))
    {
      hide Valid, Tied;
      var gone := IsGone(ino);
      if gone {
        return Error(ENOENT);
      }
      Slot(ino);
      inodes[ino].h := inodes[ino].h.(mode := mode, meta := meta);
      st := Step(st, SetAttrOp(ino, mode, meta)).0;
      Reframe(ino);
      return Done;
    }

    // ------------------------------------------------------ checkpoint and restore

    /** The copied objects hold the same values, are new, and share no buffer. */
    ghost predicate Copies(copy: seq<Inode?>, nodes: seq<Option<Node>>, key: Option<nat>, own: map<array<byte>, Inode>)
      requires |copy| <= |nodes|
      reads *
    {
      && (forall i :: 0 <= i < |copy| ==> (copy[i] == null <==> nodes[i].None?))
      && (forall i :: 0 <= i < |copy| && copy[i] != null ==> CopyAt(copy[i], nodes[i].value, Home(key, i), own))
    }

    ghost predicate CopyAt(x: Inode, n: Node, home: Home, own: map<array<byte>, Inode>)
      reads x, if x.p.FileP? then {x.p.buf} else {}
    {
      && x.home == home && x.Valid() && x.View() == n
      && (x.p.FileP? ==> x.p.buf in own && own[x.p.buf] == x)
    }

    /** One turn of the copy loops: a deep copy, or null when class and mode disagree. */
    method CopyInode(x: Inode, ghost n: Node, ghost home: Home) returns (y: Inode?)
      requires x.Valid() && x.View() == n
      ensures y == null <==> !Castable(n)
      ensures y != null ==> fresh(y) && y.home == home && y.Valid() && y.View() == n && (y.p.FileP? ==> fresh(y.p.buf))
    {
      var mode := x.h.mode;
      var agrees := if IsReg(mode) then x.p.FileP?
                    else if IsDirMode(mode) then x.p.DirP?
                    else if IsLnk(mode) then x.p.LinkP?
                    else x.p.SpecialP?;
      if !agrees {
        return null;
      }
      var c := new Inode.Copy(x);
      c.home := home;
      return c;
    }

    /** The copy loop of checkpoint and of restore. */
    method CopyTable(files: seq<Inode?>, ghost nodes: seq<Option<Node>>,
                     ghost from: Option<nat>, ghost key: Option<nat>)
      returns (ok: bool, copy: seq<Inode?>, ghost objs: set<object>, ghost own: map<array<byte>, Inode>)
      requires Tied(files, nodes, from)
      ensures ok <==> forall i :: 0 <= i < |nodes| ==> nodes[i].None? || Castable(nodes[i].value)
      ensures ok ==> |copy| == |files| == |nodes| && Copies(copy, nodes, key, own)
      ensures ok ==> fresh(objs) && InSet(copy, own, objs) && forall b :: b in own ==> fresh(b)
    {
      hide Castable;
      copy, objs, own := [], {}, map[];
      for i := 0 to |files|
        invariant |copy| == i && Copies(copy, nodes, key, own)
        invariant fresh(objs) && InSet(copy, own, objs)
        invariant forall j :: 0 <= j < i ==> nodes[j].None? || Castable(nodes[j].value)
      {
        var x := files[i];
        if x == null {
          copy := copy + [null];
          continue;
        }
        assert TiedAt(x, nodes[i].value, Home(from, i));
        ghost var before := objs;
        var y := CopyInode(x, nodes[i].value, Home(key, i));
        if y == null {
          return false, [], {}, map[];
        }
        ghost var own' := if y.p.FileP? then own[y.p.buf := y] else own;
        assert forall b :: b in own ==> own'[b] == own[b];
        CopiesGrow(copy, nodes, key, own, own');
        own := own';
        objs := objs + {y} + (if y.p.FileP? then {y.p.buf} else {});
        copy := copy + [y];
      }
      ok := true;
    }

    lemma {:induction false} CopiesGrow(copy: seq<Inode?>, nodes: seq<Option<Node>>, key: Option<nat>,
                     own: map<array<byte>, Inode>, own': map<array<byte>, Inode>)
      requires |copy| <= |nodes| && Copies(copy, nodes, key, own)
      requires forall b :: b in own ==> b in own' && own'[b] == own[b]
      ensures Copies(copy, nodes, key, own')
    {
    }

    ghost predicate InSet(copy: seq<Inode?>, own: map<array<byte>, Inode>, objs: set<object>)
    {
      && own.Keys <= objs
      && forall i :: 0 <= i < |copy| && copy[i] != null ==> copy[i] in objs
    }

    /** New objects beside the old ones leave every table as it was. */
    twostate lemma Grown()
      requires old(Valid()) && old(repr) <= repr
      requires forall b :: b in old(owner) ==> b in owner && owner[b] == old(owner)[b]
      requires forall o :: o in old(repr) ==> unchanged(o)
      ensures Tied(old(inodes), old(st).live.nodes, None)
      ensures forall k :: k in old(pool) ==> Tied(old(pool)[k].files, old(st).pool[k].nodes, Some(k))
    {
      forall i | 0 <= i < |old(inodes)| && old(inodes)[i] != null
        ensures TiedAt(old(inodes)[i], old(st).live.nodes[i].value, Home(None, i))
      {
        Kept(old(inodes)[i], old(st).live.nodes[i].value, Home(None, i), |old(inodes)|);
      }
      forall k, i | k in old(pool) && 0 <= i < |old(pool)[k].files| && old(pool)[k].files[i] != null
        ensures TiedAt(old(pool)[k].files[i], old(st).pool[k].nodes[i].value, Home(Some(k), i))
      {
        Kept(old(pool)[k].files[i], old(st).pool[k].nodes[i].value, Home(Some(k), i), |old(inodes)|);
      }
    }

    /** At most the counters and the queue have changed. */
    twostate lemma Recounted()
      requires old(Valid()) && repr == old(repr) && owner == old(owner)
      requires inodes == old(inodes) && st.live.nodes == old(st).live.nodes
      requires pool == old(pool) && st.pool == old(st).pool
      requires deleted == st.live.deleted && stbuf.v == st.live.stat
      requires forall o :: o in old(repr) ==> unchanged(o)
      ensures Valid()
    {
      hide TiedAt;
      Grown();
    }

    /** What Valid says about one pooled state. */
    lemma {:induction false} Pooled(key: nat)
      requires Valid()
      ensures pool.Keys == st.pool.Keys
      ensures key in pool ==>
                && Tied(pool[key].files, st.pool[key].nodes, Some(key)) && |pool[key].files| == |st.pool[key].nodes|
                && pool[key].deleted == st.pool[key].deleted && pool[key].stat == st.pool[key].stat
    {
    }

    /** Copies whose objects and buffers have been adopted form a table of their own. */
    lemma {:induction false} Adopted(copy: seq<Inode?>, nodes: seq<Option<Node>>, key: Option<nat>,
                                     own: map<array<byte>, Inode>, objs: set<object>)
      requires |copy| == |nodes| && Copies(copy, nodes, key, own) && InSet(copy, own, objs)
      requires objs <= repr && forall b :: b in own ==> b in owner && owner[b] == own[b]
      ensures Tied(copy, nodes, key)
    {
    }

    /** A new snapshot of new objects joins the pool; nothing else is affected. */
    twostate lemma SnapshotAdded(new key: nat, new saved: Saved, new f: Fs,
                                 new own: map<array<byte>, Inode>, new objs: set<object>)
      requires old(Valid()) && key !in old(pool) && this !in objs && stbuf !in objs
      requires |saved.files| == |f.nodes| && Copies(saved.files, f.nodes, Some(key), own)
      requires InSet(saved.files, own, objs)
      requires saved.deleted == f.deleted && saved.stat == f.stat
      requires inodes == old(inodes) && deleted == old(deleted) && stbuf.v == old(stbuf.v)
      requires pool == old(pool)[key := saved] && st == old(st).(pool := old(st).pool[key := f])
      requires repr == old(repr) + objs && owner == old(owner) + own && own.Keys !! old(owner).Keys
      requires forall o :: o in old(repr) ==> unchanged(o)
      ensures Valid()
    {
      hide TiedAt, CopyAt;
      Grown();
      Adopted(saved.files, f.nodes, Some(key), own, objs);
    }

    /** A table of new objects becomes the live one; the pool may lose snapshots. */
    twostate lemma LiveReplaced(new own: map<array<byte>, Inode>, new objs: set<object>)
      requires old(Valid()) && this !in objs && stbuf !in objs
      requires |inodes| == |st.live.nodes| && Copies(inodes, st.live.nodes, None, own) && InSet(inodes, own, objs)
      requires deleted == st.live.deleted && stbuf.v == st.live.stat
      requires pool.Keys == st.pool.Keys && pool.Keys <= old(pool).Keys
      requires forall k :: k in pool ==> pool[k] == old(pool)[k] && st.pool[k] == old(st).pool[k]
      requires repr == old(repr) + objs && owner == old(owner) + own && own.Keys !! old(owner).Keys
      requires forall o :: o in old(repr) ==> unchanged(o)
      ensures Valid()
    {
      hide TiedAt, CopyAt;
      Grown();
      Adopted(inodes, st.live.nodes, None, own, objs);
    }

    /** insert_state. */
    method InsertState(key: nat, saved: Saved, ghost f: Fs, ghost own: map<array<byte>, Inode>, ghost objs: set<object>)
      returns (ret: Errno)
      requires Valid() && this !in objs && stbuf !in objs && own.Keys !! owner.Keys
      requires |saved.files| == |f.nodes| && Copies(saved.files, f.nodes, Some(key), own)
      requires InSet(saved.files, own, objs)
      requires saved.deleted == f.deleted && saved.stat == f.stat
      modifies this`pool, this`repr, this`owner, this`st
      ensures Valid() && ret == (if key in old(st).pool then EEXIST else OK)
      ensures ret == OK ==> st == old(st).(pool := old(st).pool[key := f])
      ensures ret == OK ==> repr == old(repr) + objs && owner == old(owner) + own
      ensures ret != OK ==> st == old(st) && repr == old(repr) && owner == old(owner)
    {
      hide Tied, CopyAt;
      if key in pool {
        return EEXIST;
      }
      pool := pool[key := saved];
      repr, owner := repr + objs, owner + own;
      st := st.(pool := st.pool[key := f]);
      SnapshotAdded(key, saved, f, own, objs);
      return OK;
    }

    method Checkpoint(key: nat) returns (r: Reply)
      requires Valid()
      modifies this`pool, this`repr, this`owner, this`st
      ensures Valid() && fresh(repr - old(repr)) && (st, r) == Step(old(st), CheckpointOp(key))
    {
      hide TiedAt, CopyAt, Castable, FsStep;
      var ok, copied, objs, own := CopyTable(inodes, st.live.nodes, None, Some(key));
      if !ok {
        return Error(EBADF);
      }
      var ret := InsertState(key, Saved(copied, deleted, stbuf.v), st.live, own, objs);
      r := if ret == OK then Done else Error(ret);
    }

    /** find_state: an absent key gives an empty triple, which no stored state is. */
    method FindState(key: nat) returns (found: Saved)
      requires Valid()
      ensures key in st.pool ==> key in pool && found == pool[key]
      ensures key !in st.pool ==> found.files == [] && found.deleted == []
      ensures (key in st.pool ==> |st.pool[key].nodes| >= 2) ==>
                (found.files == [] && found.deleted == [] <==> key !in st.pool)
    {
      hide Valid, Tied;
      Pooled(key);
      if key !in pool {
        return Saved([], [], Stat(0, 0, 0, 0, 0, 0, []));
      }
      return pool[key];
    }

    /** The first part of restore: queue and counters of the snapshot become the live
        ones, then its inodes are copied; a failed copy puts queue and counters back. */
    method CopyStored(key: nat)
      returns (ok: bool, newfiles: seq<Inode?>, ghost objs: set<object>, ghost own: map<array<byte>, Inode>)
      requires Valid() && key in st.pool && key in pool
      modifies this`deleted, stbuf
      ensures ok <==> Copyable(st.pool[key])
      ensures !ok ==> Valid()
      ensures ok ==> deleted == st.pool[key].deleted && stbuf.v == st.pool[key].stat
      ensures ok ==> |newfiles| == |st.pool[key].nodes| && Copies(newfiles, st.pool[key].nodes, None, own)
      ensures ok ==> fresh(objs) && InSet(newfiles, own, objs) && forall b :: b in own ==> fresh(b)
    {
      hide Valid, Tied, CopyAt, Castable;
      Slot(0);
      Pooled(key);
      var tmpDeleted, tmpStat := deleted, stbuf.v;
      deleted := pool[key].deleted;
      stbuf.v := pool[key].stat;
      Grown();
      ok, newfiles, objs, own := CopyTable(pool[key].files, st.pool[key].nodes, Some(key), None);
      if !ok {
        deleted := tmpDeleted;
        stbuf.v := tmpStat;
        Recounted();
      }
    }

    method Restore(key: nat) returns (r: Reply)
      requires Valid()
      modifies this, stbuf
      ensures Valid() && fresh(repr - old(repr)) && (st, r) == Step(old(st), RestoreOp(key))
    {
      hide Valid, Tied, CopyAt, Castable, FsStep, FsOk;
      Slot(0);
      Pooled(key);
      var stored := FindState(key);
      if stored.files == [] && stored.deleted == [] {
        return Error(ENOENT);
      }
      var ok, newfiles, objs, own := CopyStored(key);
      if !ok {
        return Error(EBADF);
      }
      inodes := newfiles;
      // remove_state
      pool := pool - {key};
      repr, owner := repr + objs, owner + own;
      st := State(st.pool[key], st.pool - {key});
      LiveReplaced(own, objs);
      return Done;
    }

    // -------------------------------------------------------------------- dispatch

    /** One request. */
    method Handle(op: Op) returns (r: Reply)
      requires Valid() && StateSafe(st) && Sober(st.live, op)
      modifies this, stbuf, repr
      ensures Valid() && StateSafe(st) && fresh(repr - old(repr)) && (st, r) == Step(old(st), op)
    {
      hide Valid, Tidy, NamesOk, Step, Lawful, SlotsOk;
      TidyParts(st.live);
      StepSafe(st, op);
      if op.UnlinkOp? {
        UnlinkLeads(st.live, op.p, op.name);
      }
      match op
      case LookupOp(p, name) => r := FuseLookup(p, name);
      case MknodOp(p, name, mode, meta) => r := FuseMknod(p, name, mode, meta);
      case MkdirOp(p, name, mode, meta) => r := FuseMkdir(p, name, mode, meta);
      case SymlinkOp(target, p, name, meta) => r := FuseSymlink(target, p, name, meta);
      case CreateOp(p, name, mode, meta) => r := FuseCreate(p, name, mode, meta);
      case UnlinkOp(p, name) => r := FuseUnlink(p, name);
      case RmdirOp(p, name) => r := FuseRmdir(p, name);
      case RenameOp(p, name, np, newname) => r := FuseRename(p, name, np, newname);
      case LinkOp(ino, np, newname) => r := FuseLink(ino, np, newname);
      case ForgetOp(ino, n) => r := FuseForget(ino, n);
      case WriteOp(ino, data, off, mem) => r := FuseWrite(ino, data, off, mem);
      case TruncateOp(ino, size, mem) => r := FuseTruncate(ino, size, mem);
      case ReadOp(ino, size, off) => r := FuseRead(ino, size, off);
      case SetAttrOp(ino, mode, meta) => r := FuseSetAttr(ino, mode, meta);
      case CheckpointOp(key) => r := Checkpoint(key);
      case RestoreOp(key) => r := Restore(key);
    }

    /** The single-threaded session loop.  State and replies are those of the value
        model, so they do not depend on the arbitrary bytes beyond a file's end. */
    method SessionLoop(ops: seq<Op>) returns (replies: seq<Reply>)
      requires Valid() && StateSafe(st) && SoberRun(st, ops)
      modifies this, stbuf, repr
      ensures Valid() && StateSafe(st)
      ensures st == Run(old(st), ops) && replies == Replies(old(st), ops)
    {
      hide Valid, StateSafe, Step, Sober;
      replies := [];
      for i := 0 to |ops|
        invariant Valid() && StateSafe(st) && SoberRun(st, ops[i..]) && fresh(repr - old(repr))
        invariant Run(st, ops[i..]) == Run(old(st), ops)
        invariant replies + Replies(st, ops[i..]) == Replies(old(st), ops)
      {
        assert ops[i..][0] == ops[i] && ops[i..][1..] == ops[i + 1..];
        var r := Handle(ops[i]);
        replies := replies + [r];
      }
    }
  }

  lemma {:induction false} DirModeIsDir(fs: Fs, i: nat)
    requires Lawful(fs) && Live(fs, i)
    ensures IsDirMode(At(fs, i).h.mode) ==> IsDir(fs, i)
  {
    assert NodeLaw(At(fs, i));
  }

  lemma {:induction false} RegisterShape(fs: Fs, mode: nat, nlink: word, meta: seq<byte>, body: Body)
    ensures var g, n := Register(fs, mode, nlink, meta, body), Fresh(NextSlot(fs), mode, nlink, meta, body);
            && g.nodes == PutSlot(fs.nodes, NextSlot(fs), Some(n))
            && g.deleted == (if fs.deleted == [] then [] else fs.deleted[1..])
            && g.stat == UseBlocks(if body.DirBody? then UseBlocks(UseInodes(fs.stat, 1), 1)
                                   else UseInodes(fs.stat, 1), n.h.blocks)
  {
  }

  lemma {:induction false} StillDir(fs: Fs, d: nat, name: Name, ino: nat)
    requires IsDir(fs, d)
    ensures IsDir(AddChild(fs, d, name, ino).0, d)
  {
  }

  lemma {:induction false} FileBlocks(fs: Fs, i: nat)
    requires Lawful(fs) && IsFile(fs, i)
    ensures At(fs, i).h.blocks == NBlocks(At(fs, i).h.size)
  {
    assert NodeLaw(At(fs, i));
  }

  lemma {:induction false} TidyParts(fs: Fs)
    requires Tidy(fs)
    ensures Lawful(fs) && SlotsOk(fs)
  {
  }

  /** In a safe table the inode unlink decrements is there. */
  lemma {:induction false} UnlinkLeads(fs: Fs, p: nat, name: Name)
    requires Safe(fs) && !Dot(name)
    ensures IsDir(fs, p) ==> var ino := ChildIno(Children(fs, p), name); ino == 0 || Live(fs, ino)
  {
    hide Tidy, NamesOk, LinksTo;
    if IsDir(fs, p) && Find(Children(fs, p), name) < |Children(fs, p)| {
      NameLeads(fs, p, Find(Children(fs, p), name));
    }
  }

  lemma {:induction false} AddLinksTwice(fs: Fs, i: nat)
    requires Live(fs, i)
    ensures AddLinks(AddLinks(fs, i, -1), i, -1) == AddLinks(fs, i, -2)
  {
  }

  lemma {:induction false} CreatedIsLive(fs: Fs, p: nat, name: Name, mode: nat, link: Option<seq<byte>>,
                                         meta: seq<byte>)
    requires SlotsOk(fs) && IsDir(fs, p)
    ensures var (g, r) := DoCreateNode(fs, p, name, mode, link, meta); r.EntryOf? ==> Live(g, r.ino)
  {
    hide LinksOk, TreeOk, TableOk, Prepared;
    if NewBody(mode, link).Some? {
      PreparedShape(fs, p, mode, NewBody(mode, link).value, meta);
    }
  }

  /** The head of the free queue is a null slot, so not the parent. */
  lemma {:induction false} FreeHead(fs: Fs)
    requires SlotsOk(fs)
    ensures fs.deleted != [] ==> fs.deleted[0] < |fs.nodes|
    ensures !Live(fs, NextSlot(fs)) && NextSlot(fs) <= |fs.nodes|
  {
    assert fs.deleted != [] ==> fs.deleted[0] in fs.deleted;
  }
}
