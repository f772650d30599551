/** The reachable-state invariant and what the kernel promises about requests. */
module Invariant {
  import opened Base
  import opened Model
  import opened Graph

  // ------------------------------------------------------------ per-inode laws

  ghost predicate UniqueNames(es: seq<Entry>) {
    forall j, k :: 0 <= j < k < |es| ==> es[j].name != es[k].name
  }

  /** The base size plus a fixed cost and the name length for each entry. */
  ghost function DirSize(es: seq<Entry>): int {
    DIR_BASE + Sum(es, CostW())
  }

  /** Class, type bits, size, blocks and names of an inode agree, in whatever slot. */
  ghost predicate NodeLaw(n: Node) {
    && n.h.blocks == NBlocks(n.h.size)
    && Castable(n)
    && match n.body
       case FileBody(data) => n.h.size == |data|
       case DirBody(es) => n.h.size == DirSize(es) && UniqueNames(es)
       case LinkBody(t) => n.h.size == |t|
       case SpecialBody(_) => n.h.size == 0
  }

  /** The inode in slot i has number i and obeys the law; only the placeholder in
      slot 0 has no type. */
  ghost predicate NodeOk(i: nat, n: Node) {
    && n.h.ino == i
    && NodeLaw(n)
    && (n.body.SpecialBody? ==> if i == 0 then n.h.mode == 0 else IsSpecialMode(n.h.mode))
  }

  ghost predicate TableOk(fs: Fs) {
    forall i: nat :: Live(fs, i) ==> NodeOk(i, At(fs, i))
  }

  // ------------------------------------------------------------------ the slots

  function LiveW(): Option<Node> -> int {
    (o: Option<Node>) => B2I(o.Some?)
  }

  ghost function LiveCount(fs: Fs): int {
    Sum(fs.nodes, LiveW())
  }

  ghost predicate NoDup(q: seq<nat>) {
    forall j, k :: 0 <= j < k < |q| ==> q[j] != q[k]
  }

  /** The free queue lists exactly the null slots, once each; slots 0 and 1 are
      in use; f_ffree is f_files less the slots in use, as a 64-bit number. */
  ghost predicate SlotsOk(fs: Fs) {
    && |fs.nodes| >= 2
    && Live(fs, 0) && Live(fs, ROOT)
    && (forall i: nat :: i in fs.deleted <==> i < |fs.nodes| && fs.nodes[i].None?)
    && NoDup(fs.deleted)
    && fs.stat.ffree == Wrap(fs.stat.files - LiveCount(fs))
  }

  // ------------------------------------------------------- link counts and tree

  ghost predicate Named(fs: Fs, i: nat) {
    i == ROOT || LinksTo(fs, i) > 0
  }

  ghost predicate LinksOk(fs: Fs) {
    && (Live(fs, 0) ==> !IsDir(fs, 0) && At(fs, 0).h.nlink == 0)
    && IsDir(fs, ROOT) && LinksTo(fs, ROOT) == 0
    && (forall i: nat :: LinksTo(fs, i) > 0 ==> Live(fs, i))
    && (forall i: nat :: Live(fs, i) && !IsDir(fs, i) ==> At(fs, i).h.nlink == LinksTo(fs, i))
    && (forall i: nat :: IsDir(fs, i) && Named(fs, i) ==> At(fs, i).h.nlink == 2 + Subdirs(fs, i))
  }

  /** Following naming parents k times from i arrives at a. */
  ghost predicate Climbs(fs: Fs, i: nat, a: nat, k: nat)
    decreases k
  {
    if k == 0 then i == a
    else exists p: nat :: In(fs, p, i) > 0 && Climbs(fs, p, a, k - 1)
  }

  ghost predicate Within(fs: Fs, i: nat, a: nat) {
    exists k: nat :: Climbs(fs, i, a, k)
  }

  ghost predicate TreeOk(fs: Fs) {
    && (forall i: nat :: IsDir(fs, i) ==> LinksTo(fs, i) <= 1)
    && (forall i: nat :: IsDir(fs, i) && !Named(fs, i) ==> NonDots(fs, i) == 0)
    && (forall i: nat :: IsDir(fs, i) && Named(fs, i) ==> Within(fs, i, ROOT))
  }

  ghost predicate FsOk(fs: Fs) {
    TableOk(fs) && SlotsOk(fs) && LinksOk(fs) && TreeOk(fs)
  }

  /** The live state and every pooled snapshot satisfy the invariant. */
  ghost predicate StateOk(st: State) {
    FsOk(st.live) && forall k :: k in st.pool ==> FsOk(st.pool[k])
  }

  // ----------------------------------------------- what the kernel VFS promises

  /** A parent in a request is the root or still named. */
  ghost predicate ParentOk(fs: Fs, p: nat) {
    CheckParent(fs, p) == OK ==> Named(fs, p)
  }

  /** One more link still fits a 64-bit count. */
  predicate RoomToLink(fs: Fs, i: nat) {
    Live(fs, i) ==> At(fs, i).h.nlink < 0xFFFF_FFFF_FFFF_FFFF
  }

  /** The guards of _AddChild: the name is free and the directory may grow by its cost. */
  predicate NameFits(fs: Fs, d: nat, name: Name)
    requires IsDir(fs, d)
  {
    var h, es := At(fs, d).h, Children(fs, d);
    Find(es, name) == |es| && HasSpaceFor(fs.stat, h.blocks, h.size, Cost(name))
  }

  /** The guard under which rename keeps the source: an unoccupied destination name
      fits the new parent. */
  predicate RenameFits(fs: Fs, p: nat, name: Name, np: nat, newname: Name) {
    RenameCheck(fs, p, name, np) == OK ==>
      Occupied(fs, ChildIno(Children(fs, np), newname)) || NameFits(fs, np, newname)
  }

  lemma {:induction false} NameFitsIff(fs: Fs, d: nat, name: Name, ino: nat)
    requires IsDir(fs, d)
    ensures AddChild(fs, d, name, ino).1 == OK <==> NameFits(fs, d, name)
    ensures AddChild(fs, d, name, ino).1 != OK ==> AddChild(fs, d, name, ino).0 == fs
  {
  }

  ghost predicate RenameLegal(fs: Fs, p: nat, name: Name, np: nat, newname: Name) {
    && !Dot(name) && !Dot(newname) && ParentOk(fs, p) && ParentOk(fs, np)
    && RoomToLink(fs, np)
    && (RenameCheck(fs, p, name, np) == OK ==>
          var src, dst := ChildIno(Children(fs, p), name), ChildIno(Children(fs, np), newname);
          src != dst && (IsDir(fs, src) ==> !Within(fs, np, src)))
  }

  ghost predicate CreateLegal(fs: Fs, p: nat, name: Name) {
    !Dot(name) && ParentOk(fs, p) && RoomToLink(fs, p)
  }

  ghost predicate FsLegal(fs: Fs, op: Op) {
    match op
    case LookupOp(p, name) => !Dot(name)
    case MknodOp(p, name, _, _) => CreateLegal(fs, p, name)
    case MkdirOp(p, name, _, _) => CreateLegal(fs, p, name)
    case SymlinkOp(_, p, name, _) => CreateLegal(fs, p, name)
    case CreateOp(p, name, _, _) => CreateLegal(fs, p, name)
    case UnlinkOp(p, name) =>
      !Dot(name) && ParentOk(fs, p) && (IsDir(fs, p) ==> !IsDir(fs, ChildIno(Children(fs, p), name)))
    case RmdirOp(p, name) => !Dot(name) && ParentOk(fs, p)
    case RenameOp(p, name, np, newname) =>
      RenameLegal(fs, p, name, np, newname) && RenameFits(fs, p, name, np, newname)
    case LinkOp(ino, np, newname) =>
      !Dot(newname) && ParentOk(fs, np) && !IsDir(fs, ino) && RoomToLink(fs, ino)
    case ForgetOp(ino, n) => ino != 0
    case SetAttrOp(ino, mode, _) => Live(fs, ino) ==> TypeBits(mode) == TypeBits(At(fs, ino).h.mode)
    case _ => true
  }

  ghost predicate Legal(st: State, op: Op) {
    op.CheckpointOp? || op.RestoreOp? || FsLegal(st.live, op)
  }

  // ------------------------------------------------------- primitives, locally

  /** Same occupancy, queue and inode counters. */
  ghost predicate SameSlots(fs: Fs, g: Fs) {
    && |g.nodes| == |fs.nodes|
    && (forall i: nat :: Live(g, i) <==> Live(fs, i))
    && g.deleted == fs.deleted
    && g.stat.files == fs.stat.files && g.stat.ffree == fs.stat.ffree
  }

  lemma {:induction false} SameSlotsOk(fs: Fs, g: Fs)
    requires SlotsOk(fs) && SameSlots(fs, g)
    ensures SlotsOk(g)
    ensures LiveCount(g) == LiveCount(fs)
  {
    forall i: nat | i < |fs.nodes| ensures LiveW()(g.nodes[i]) == LiveW()(fs.nodes[i]) {
      assert Live(g, i) <==> Live(fs, i);
    }
    SumPointwise(g.nodes, fs.nodes, LiveW());
    forall i: nat ensures i in g.deleted <==> i < |g.nodes| && g.nodes[i].None? {
      assert Live(g, i) <==> Live(fs, i);
    }
  }

  lemma {:induction false} AddChildOk(fs: Fs, d: nat, name: Name, ino: nat)
    requires TableOk(fs)
    requires AddChild(fs, d, name, ino).1 == OK
    ensures var g := AddChild(fs, d, name, ino).0;
            TableOk(g) && SameSlots(fs, g) && Edited(fs, g, d, None, Some(Entry(name, ino)))
  {
    var g := AddChild(fs, d, name, ino).0;
    assert NodeOk(d, At(fs, d));
    SumAppend(Children(fs, d), Entry(name, ino), CostW());
    assert NodeOk(d, At(g, d));
    forall i: nat | Live(g, i) ensures NodeOk(i, At(g, i)) {
      assert i != d ==> At(g, i) == At(fs, i);
    }
  }

  /** The negative-size assertion cannot fire: an entry's cost is part of the size. */
  lemma {:induction false} RemovalFits(fs: Fs, d: nat, name: Name)
    requires TableOk(fs) && IsDir(fs, d)
    requires Find(Children(fs, d), name) < |Children(fs, d)|
    ensures Cost(name) + DIR_BASE <= At(fs, d).h.size
  {
    var es := Children(fs, d);
    assert NodeOk(d, At(fs, d));
    SumBounds(es, CostW());
    assert CostW()(es[Find(es, name)]) == Cost(name);
  }

  lemma {:induction false} RemoveChildOk(fs: Fs, d: nat, name: Name)
    requires TableOk(fs) && IsDir(fs, d)
    requires Find(Children(fs, d), name) < |Children(fs, d)|
    ensures var g := RemoveChild(fs, d, name);
            TableOk(g) && SameSlots(fs, g)
            && Edited(fs, g, d, Some(Children(fs, d)[Find(Children(fs, d), name)]), None)
  {
    hide Wrap, NBlocks, Sum, TypeBits;
    var g := RemoveChild(fs, d, name);
    var es := Children(fs, d);
    var k := Find(es, name);
    RemovalFits(fs, d, name);
    assert NodeOk(d, At(fs, d));
    SumRemove(es, k, CostW());
    assert Children(g, d) == es[..k] + es[k + 1..];
    assert Edit(es, Children(g, d), Some(es[k]), None);
    assert NodeOk(d, At(g, d));
    forall i: nat | Live(g, i) ensures NodeOk(i, At(g, i)) {
      assert i != d ==> At(g, i) == At(fs, i);
    }
  }

  lemma {:induction false} UpdateChildOk(fs: Fs, d: nat, name: Name, ino: nat)
    requires TableOk(fs) && IsDir(fs, d)
    requires Find(Children(fs, d), name) < |Children(fs, d)|
    ensures var g := UpdateChild(fs, d, name, ino);
            var k := Find(Children(fs, d), name);
            TableOk(g) && SameSlots(fs, g)
            && Edited(fs, g, d, Some(Children(fs, d)[k]), Some(Entry(name, ino)))
            && Children(g, d) == Children(fs, d)[k := Entry(name, ino)]
  {
    var g := UpdateChild(fs, d, name, ino);
    var es := Children(fs, d);
    var k := Find(es, name);
    assert NodeOk(d, At(fs, d));
    SumUpdate(es, k, Entry(name, ino), CostW());
    assert Children(g, d) == es[k := Entry(name, ino)];
    assert Edit(es, Children(g, d), Some(es[k]), Some(Entry(name, ino)));
    assert NodeOk(d, At(g, d));
    forall i: nat | Live(g, i) ensures NodeOk(i, At(g, i)) {
      assert i != d ==> At(g, i) == At(fs, i);
    }
  }

  /** A change of counters, permissions or opaque attributes. */
  lemma {:induction false} SetHeadOk(fs: Fs, i: nat, h: Head)
    requires TableOk(fs) && Live(fs, i)
    requires var h0 := At(fs, i).h;
             h == h0.(nlink := h.nlink, nlookup := h.nlookup, mode := h.mode, meta := h.meta)
             && (h.mode == h0.mode || (TypeBits(h.mode) == TypeBits(h0.mode) && i != 0))
    ensures var g := SetHead(fs, i, h);
            TableOk(g) && SameSlots(fs, g) && SameGraph(fs, g)
  {
    var g := SetHead(fs, i, h);
    assert NodeOk(i, At(fs, i));
    assert NodeOk(i, At(g, i));
    forall j: nat | Live(g, j) ensures NodeOk(j, At(g, j)) {
      assert j != i ==> At(g, j) == At(fs, j);
    }
  }

  lemma {:induction false} AddLinksOk(fs: Fs, i: nat, n: int)
    requires TableOk(fs) && Live(fs, i)
    ensures var g := AddLinks(fs, i, n);
            && TableOk(g) && SameSlots(fs, g) && SameGraph(fs, g)
            && g.nodes == fs.nodes[i := g.nodes[i]]
            && (0 <= At(fs, i).h.nlink + n < 0x1_0000_0000_0000_0000 ==> At(g, i).h.nlink == At(fs, i).h.nlink + n)
  {
    SetHeadOk(fs, i, At(AddLinks(fs, i, n), i).h);
  }

  lemma {:induction false} SetDataOk(fs: Fs, i: nat, data: seq<byte>)
    requires TableOk(fs) && IsFile(fs, i)
    ensures var g := SetData(fs, i, data);
            TableOk(g) && SameSlots(fs, g) && SameGraph(fs, g)
  {
    var g := SetData(fs, i, data);
    assert NodeOk(i, At(fs, i));
    assert NodeOk(i, At(g, i));
    forall j: nat | Live(g, j) ensures NodeOk(j, At(g, j)) {
      assert j != i ==> At(g, j) == At(fs, j);
    }
  }

  // -------------------------------------------------- registration and deletion

  /** The inode do_create_node has built when it comes to adding the name. */
  function NewNode(fs: Fs, p: nat, mode: nat, body: Body, meta: seq<byte>): Node
    requires Live(fs, p)
  {
    var ino := NextSlot(fs);
    if body.DirBody? then
      Node(Head(ino, mode, 2, 171, 1, 0, false, meta, []),
           DirBody([Entry(DOT, ino), Entry(DOTDOT, At(fs, p).h.ino)]))
    else Fresh(ino, mode, 1, meta, body)
  }

  /** What registration charges: a directory's first block twice. */
  function Charge(n: Node): nat {
    if n.body.DirBody? then 2 * n.h.blocks else n.h.blocks
  }

  /** The file system before the name is added, with the node in place. */
  function Placed(fs: Fs, n: Node): Fs {
    Fs(PutSlot(fs.nodes, NextSlot(fs), Some(n)),
       if fs.deleted == [] then [] else fs.deleted[1..],
       UseBlocks(UseInodes(fs.stat, 1), Charge(n)))
  }

  /** The file system after the name could not be added. */
  function Abandoned(fs: Fs, n: Node): Fs {
    Fs(if fs.deleted == [] then fs.nodes + [None] else fs.nodes,
       if fs.deleted == [] then [NextSlot(fs)] else fs.deleted[1..] + [NextSlot(fs)],
       UseBlocks(fs.stat, Charge(n) + n.h.blocks))
  }

  /** Adding an entry inside the blocks a directory has costs nothing and cannot fail. */
  lemma {:induction false} AddInBlock(fs: Fs, d: nat, name: Name, ino: nat)
    requires IsDir(fs, d) && Find(Children(fs, d), name) == |Children(fs, d)|
    requires NBlocks(At(fs, d).h.size + Cost(name)) == At(fs, d).h.blocks
    ensures AddChild(fs, d, name, ino)
            == (fs.(nodes := fs.nodes[d := Some(Node(At(fs, d).h.(size := At(fs, d).h.size + Cost(name)),
                                                     DirBody(Children(fs, d) + [Entry(name, ino)])))]), OK)
  {
  }

  /** "." and ".." always fit the block a new directory already has. */
  lemma {:induction false} DotsShape(fs: Fs, ino: nat, parent: nat)
    requires IsDir(fs, ino) && Children(fs, ino) == [] && At(fs, ino).h.size == 24 && At(fs, ino).h.blocks == 1
    ensures AddDots(fs, ino, parent)
            == fs.(nodes := fs.nodes[ino := Some(Node(At(fs, ino).h.(size := 171),
                                                      DirBody([Entry(DOT, ino), Entry(DOTDOT, parent)])))])
  {
    AddInBlock(fs, ino, DOT, ino);
    var f := AddChild(fs, ino, DOT, ino).0;
    assert Children(f, ino) == [Entry(DOT, ino)];
    assert Find([Entry(DOT, ino)], DOTDOT) == 1;
    AddInBlock(f, ino, DOTDOT, parent);
    assert [Entry(DOT, ino)] + [Entry(DOTDOT, parent)] == [Entry(DOT, ino), Entry(DOTDOT, parent)];
  }

  lemma {:induction false} PreparedShape(fs: Fs, p: nat, mode: nat, body: Body, meta: seq<byte>)
    requires SlotsOk(fs) && Live(fs, p)
    requires body.DirBody? ==> body == DirBody([])
    ensures Prepared(fs, p, mode, body, meta) == Placed(fs, NewNode(fs, p, mode, body, meta))
    ensures !Live(fs, NextSlot(fs)) && NextSlot(fs) <= |fs.nodes|
  {
    hide Wrap;
    var ino := NextSlot(fs);
    assert fs.deleted != [] ==> ino in fs.deleted;
    if body.DirBody? {
      var f := Register(fs, mode, 2, meta, body);
      DotsShape(f, ino, At(fs, p).h.ino);
      WrapShift(fs.stat.bfree - 1, -1);
      WrapShift(fs.stat.bavail - 1, -1);
    }
  }

  /** A failed create leaves every inode, every name and f_ffree as they were; the
      slot goes to the end of the free queue (a null slot is appended when the
      queue was empty) and the node's blocks stay charged twice. */
  lemma {:induction false} FailedCreateShape(fs: Fs, p: nat, mode: nat, body: Body, meta: seq<byte>)
    requires SlotsOk(fs) && Live(fs, p)
    requires body.DirBody? ==> body == DirBody([])
    ensures Rollback(Prepared(fs, p, mode, body, meta), NextSlot(fs)) == Abandoned(fs, NewNode(fs, p, mode, body, meta))
  {
    hide Prepared, NewNode, SlotsOk, Rollback, Charge, UseBlocks, UseInodes;
    PreparedShape(fs, p, mode, body, meta);
    UndoShape(fs, Prepared(fs, p, mode, body, meta), NewNode(fs, p, mode, body, meta));
  }

  lemma {:induction false} UndoShape(fs: Fs, f: Fs, n: Node)
    requires SlotsOk(fs)
    requires f.nodes == PutSlot(fs.nodes, NextSlot(fs), Some(n))
    requires f.stat == UseBlocks(UseInodes(fs.stat, 1), Charge(n))
    ensures Rollback(f, NextSlot(fs))
            == Fs(if fs.deleted == [] then fs.nodes + [None] else fs.nodes,
                  f.deleted + [NextSlot(fs)],
                  UseBlocks(fs.stat, Charge(n) + n.h.blocks))
  {
    var ino := NextSlot(fs);
    assert fs.deleted != [] ==> ino in fs.deleted;
    assert PutSlot(f.nodes, ino, None) == if fs.deleted == [] then fs.nodes + [None] else fs.nodes;
    hide SlotsOk, Charge;
    ChargeTwice(fs.stat, Charge(n), n.h.blocks);
    hide UseBlocks, UseInodes;
  }

  /** Taking one inode and giving it back; two block charges add up. */
  lemma {:induction false} ChargeTwice(s: Stat, a: int, b: int)
    ensures UseBlocks(UseInodes(UseBlocks(UseInodes(s, 1), a), -1), b) == UseBlocks(s, a + b)
  {
    hide Wrap;
    WrapExact(s.ffree);
    WrapExact(s.favail);
    WrapShift(s.ffree - 1, 1);
    WrapShift(s.favail - 1, 1);
    WrapShift(s.bfree - a, 0 - b);
    WrapShift(s.bavail - a, 0 - b);
  }

  lemma {:induction false} NewNodeOk(fs: Fs, p: nat, mode: nat, link: Option<seq<byte>>, meta: seq<byte>)
    requires Live(fs, p) && NewBody(mode, link).Some? && NextSlot(fs) != 0
    ensures var n := NewNode(fs, p, mode, NewBody(mode, link).value, meta);
            NodeOk(NextSlot(fs), n)
            && (n.body.DirBody? ==> forall k :: 0 <= k < |n.body.children| ==> Dot(n.body.children[k].name))
  {
    var n := NewNode(fs, p, mode, NewBody(mode, link).value, meta);
    if n.body.DirBody? {
      var es := n.body.children;
      assert es == ([] + [es[0]]) + [es[1]];
      SumAppend([], es[0], CostW());
      SumAppend([es[0]], es[1], CostW());
      assert [] + [es[0]] == [es[0]];
    }
  }

  /** The free queue after its head was taken. */
  lemma {:induction false} QueuePopped(fs: Fs, g: Fs, n: Node)
    requires SlotsOk(fs)
    requires g.nodes == PutSlot(fs.nodes, NextSlot(fs), Some(n))
    requires g.deleted == if fs.deleted == [] then [] else fs.deleted[1..]
    ensures NextSlot(fs) <= |fs.nodes| && !Live(fs, NextSlot(fs))
    ensures NoDup(g.deleted)
    ensures forall i: nat :: i in g.deleted <==> i < |g.nodes| && g.nodes[i].None?
  {
    var ino := NextSlot(fs);
    if fs.deleted != [] {
      assert ino in fs.deleted;
      assert fs.deleted == [ino] + fs.deleted[1..];
    }
    forall i: nat ensures i in g.deleted <==> i < |g.nodes| && g.nodes[i].None? {
      assert i in fs.deleted <==> i < |fs.nodes| && fs.nodes[i].None?;
    }
  }

  /** Filling the next slot keeps the slot law of the table. */
  lemma {:induction false} FillSlot(fs: Fs, g: Fs, n: Node)
    requires SlotsOk(fs) && fs.stat.ffree != 0
    requires g.nodes == PutSlot(fs.nodes, NextSlot(fs), Some(n))
    requires g.deleted == if fs.deleted == [] then [] else fs.deleted[1..]
    requires g.stat.files == fs.stat.files && g.stat.ffree == Wrap(fs.stat.ffree - 1)
    ensures SlotsOk(g) && LiveCount(g) == LiveCount(fs) + 1
  {
    QueuePopped(fs, g, n);
    hide NoDup;
    if fs.deleted == [] {
      SumAppend(fs.nodes, Some(n), LiveW());
    } else {
      assert fs.deleted[0] in fs.deleted;
      SumUpdate(fs.nodes, NextSlot(fs), Some(n), LiveW());
    }
    WrapShift(fs.stat.files - LiveCount(fs), -1);
  }

  /** Clearing a slot other than 0 and 1 keeps the slot law. */
  lemma {:induction false} ClearSlot(fs: Fs, g: Fs, ino: nat)
    requires SlotsOk(fs) && Live(fs, ino) && ino > ROOT
    requires g.nodes == PutSlot(fs.nodes, ino, None)
    requires g.deleted == fs.deleted + [ino]
    requires g.stat.files == fs.stat.files && g.stat.ffree == Wrap(fs.stat.ffree + 1)
    ensures SlotsOk(g) && LiveCount(g) == LiveCount(fs) - 1
  {
    SumUpdate(fs.nodes, ino, None, LiveW());
    WrapShift(fs.stat.files - LiveCount(fs), 1);
    forall i: nat ensures i in g.deleted <==> i < |g.nodes| && g.nodes[i].None? {
      assert i in fs.deleted <==> i < |fs.nodes| && fs.nodes[i].None?;
    }
  }
}
