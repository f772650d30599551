/** What mknod, mkdir, symlink and create answer and make, with the new inode written
    out. */
module Creations {
  import opened Base
  import opened Model
  import opened Graph
  import opened Invariant
  import opened RenameProofs
  import opened Laws
  import opened DirectoryMap
  import opened Accounting
  import opened Slots
  import opened Meanings

  // -------------------------------------------------------------- what is asked for

  /** m is mode with one bit set and all other bits as they were. */
  predicate WithBit(m: nat, mode: nat, bit: nat)
    requires bit > 0
  {
    m / bit % 2 == 1 && m % bit == mode % bit && m / (2 * bit) == mode / (2 * bit)
  }

  /** The mode the new inode is to have: mkdir sets S_IFDIR, create S_IFREG, a symlink
      is 0120777. */
  predicate Requested(op: Op, mode: nat)
    requires IsCreate(op)
  {
    match op
    case MknodOp(_, _, m, _) => mode == m
    case MkdirOp(_, _, m, _) => WithBit(mode, m, 0x4000)
    case CreateOp(_, _, m, _) => WithBit(mode, m, 0x8000)
    case SymlinkOp(_, _, _, _) => mode == 0xA1FF
  }

  /** A type the server has a class for; a link only with a text. */
  predicate Makeable(op: Op, mode: nat) {
    TypeBits(mode) in {1, 2, 4, 6, 8, 12} || op.SymlinkOp?
  }

  /** Blocks registered without asking: a directory's first block twice, a link's text. */
  function Charged(op: Op, mode: nat): nat {
    if op.SymlinkOp? then NBlocks(|op.target|) else if TypeBits(mode) == 4 then 2 else 0
  }

  /** The parent can take the name once the node's own blocks are charged. */
  predicate SpaceLeft(fs: Fs, op: Op, mode: nat)
    requires IsCreate(op) && IsDir(fs, op.p)
  {
    var size := At(fs, op.p).h.size;
    NBlocks(size + 72 + |op.name|) - NBlocks(size) <= Wrap(fs.stat.bfree - Charged(op, mode))
  }

  /** The number a registration gets. */
  function Slot(fs: Fs): nat {
    if fs.deleted == [] then |fs.nodes| else fs.deleted[0]
  }

  /** The new inode: number, mode and attributes as asked for, one lookup, and by type
      an empty file, a directory of "." and "..", the link with its text, or a special. */
  ghost predicate IsNew(n: Node, i: nat, parent: nat, op: Op, mode: nat)
    requires IsCreate(op)
  {
    && n.h.ino == i && n.h.mode == mode && n.h.meta == op.meta
    && n.h.nlookup == 1 && !n.h.marked && n.h.xattrs == []
    && n.h.nlink == (if TypeBits(mode) == 4 then 2 else 1)
    && n.h.size <= 512 * n.h.blocks < n.h.size + 512
    && (op.SymlinkOp? ==> n.body == LinkBody(op.target) && n.h.size == |op.target|)
    && (!op.SymlinkOp? ==>
          match TypeBits(mode)
          case 8 => n.body == FileBody([]) && n.h.size == 0
          case 4 => n.body == DirBody([Entry([46], i), Entry([46, 46], parent)]) && n.h.size == 24 + 73 + 74
          case 2 => n.body == SpecialBody(1) && n.h.size == 0
          case 6 => n.body == SpecialBody(2) && n.h.size == 0
          case 1 => n.body == SpecialBody(3) && n.h.size == 0
          case 12 => n.body == SpecialBody(4) && n.h.size == 0
          case _ => false)
  }

  lemma {:induction false} RequestedIs(op: Op, mode: nat)
    requires IsCreate(op)
    ensures Requested(op, mode) <==> mode == CreateMode(op)
  {
    match op
    case MkdirOp(_, _, m, _) => BitIs(mode, m, 0x4000);
    case CreateOp(_, _, m, _) => BitIs(mode, m, 0x8000);
    case _ =>
  }

  lemma {:induction false} BitIs(mode: nat, m: nat, bit: nat)
    requires bit == 0x4000 || bit == 0x8000
    ensures WithBit(mode, m, bit) <==> mode == OrBit(m, bit)
  {
    HalfStep(mode, bit);
    HalfStep(m, bit);
    if m / bit % 2 == 0 && mode == m + bit {
      NextHalf(m, bit);
    }
  }

  /** Bit 14 or 15 is the last bit of what is left without the bits below. */
  lemma {:induction false} HalfStep(m: nat, bit: nat)
    requires bit == 0x4000 || bit == 0x8000
    ensures m == m / bit * bit + m % bit && m / (2 * bit) == m / bit / 2
  {
    if bit == 0x4000 {
      assert m == m / 0x4000 * 0x4000 + m % 0x4000;
      assert m / 0x8000 == m / 0x4000 / 2;
    } else {
      assert m == m / 0x8000 * 0x8000 + m % 0x8000;
      assert m / 0x10000 == m / 0x8000 / 2;
    }
  }

  lemma {:induction false} NextHalf(m: nat, bit: nat)
    requires bit == 0x4000 || bit == 0x8000
    ensures (m + bit) / bit == m / bit + 1 && (m + bit) % bit == m % bit
  {
  }

  lemma {:induction false} MakeableIs(op: Op)
    requires IsCreate(op)
    ensures Makeable(op, CreateMode(op)) <==> NewBody(CreateMode(op), CreateLink(op)).Some?
  {
    if op.SymlinkOp? {
      assert TypeBits(SYMLINK_MODE) == 10;
    }
    hide TypeBits;
  }

  lemma {:induction false} BodyIs(op: Op)
    requires IsCreate(op) && Makeable(op, CreateMode(op))
    ensures var mode, b := CreateMode(op), NewBody(CreateMode(op), CreateLink(op)).value;
            && (op.SymlinkOp? ==> b == LinkBody(op.target) && TypeBits(mode) == 10)
            && (!op.SymlinkOp? ==>
                  match TypeBits(mode)
                  case 8 => b == FileBody([])
                  case 4 => b == DirBody([])
                  case 2 => b == SpecialBody(1)
                  case 6 => b == SpecialBody(2)
                  case 1 => b == SpecialBody(3)
                  case 12 => b == SpecialBody(4)
                  case _ => false)
  {
    MakeableIs(op);
    if op.SymlinkOp? {
      assert TypeBits(SYMLINK_MODE) == 10;
    }
    hide TypeBits;
  }

  // ------------------------------------------------------------------- the answers

  lemma {:induction false} ChargeIs(fs: Fs, op: Op)
    requires IsCreate(op) && Makeable(op, CreateMode(op)) && Live(fs, op.p)
    ensures NewBody(CreateMode(op), CreateLink(op)).Some?
    ensures var n := NewNode(fs, op.p, CreateMode(op), NewBody(CreateMode(op), CreateLink(op)).value, op.meta);
            Charge(n) == Charged(op, CreateMode(op))
  {
    hide NewBody, TypeBits, CreateMode;
    MakeableIs(op);
    BodyIs(op);
  }

  /** The parent is untouched by the placing of a new node. */
  lemma {:induction false} PlacedParent(fs: Fs, n: Node, p: nat)
    requires SlotsOk(fs) && IsDir(fs, p)
    ensures IsDir(Placed(fs, n), p) && At(Placed(fs, n), p) == At(fs, p) && p != NextSlot(fs)
    ensures Placed(fs, n).stat.bfree == Wrap(fs.stat.bfree - Charge(n))
  {
    hide Wrap, Charge;
    NextIsFree(fs);
  }

  lemma {:induction false} NamingIs(fs: Fs, op: Op)
    requires SlotsOk(fs) && Lawful(fs) && IsCreate(op) && IsDir(fs, op.p) && Makeable(op, CreateMode(op))
    requires NewBody(CreateMode(op), CreateLink(op)).Some?
    ensures var n := NewNode(fs, op.p, CreateMode(op), NewBody(CreateMode(op), CreateLink(op)).value, op.meta);
            Naming(fs, n, op.p, op.name)
            == if op.name in Bindings(fs, op.p) then EEXIST
               else if SpaceLeft(fs, op, CreateMode(op)) then OK else ENOSPC
  {
    hide NewBody, CreateMode, Bindings, Placed, NewNode, Charge, Charged, SlotsOk, NBlocks, Wrap, PutChildren, Makeable;
    var n := NewNode(fs, op.p, CreateMode(op), NewBody(CreateMode(op), CreateLink(op)).value, op.meta);
    PlacedParent(fs, n, op.p);
    ChargeIs(fs, op);
    ChildLeads(fs, op.p, op.name);
    assert NodeLaw(At(fs, op.p));
  }

  /** What the create requests answer, each code with its cause in the order of the
      tests. */
  lemma {:induction false} CreateAnswers(fs: Fs, op: Op, mode: nat)
    requires SlotsOk(fs) && Lawful(fs) && IsCreate(op) && Requested(op, mode)
    ensures FsStep(fs, op).1
            == if Gone(fs, op.p) then Error(ENOENT)
               else if !IsDir(fs, op.p) then Error(ENOTDIR)
               else if op.CreateOp? && !Makeable(op, mode) then Error(EINVAL)
               else if fs.stat.ffree == 0 then Error(ENOSPC)
               else if op.SymlinkOp? && NBlocks(if |op.name| < 4096 then |op.name| else 4096) > fs.stat.bfree
                 then Error(ENOSPC)
               else if Leads(fs, op.p, op.name) != 0 then Error(EEXIST)
               else if !Makeable(op, mode) then Error(EINVAL)
               else if op.name in Bindings(fs, op.p) then Error(EEXIST)
               else if !SpaceLeft(fs, op, mode) then Error(ENOSPC)
               else EntryOf(Slot(fs))
  {
    hide NewBody, CreateMode, Bindings, SlotsOk, Lawful, Finished, Abandoned, Naming, NewNode, SpaceLeft, Makeable;
    hide Prepared, AddChild, Rollback, Requested;
    RequestedIs(op, mode);
    if CheckParent(fs, op.p) == OK {
      ChildLeads(fs, op.p, op.name);
      MakeableIs(op);
      ModeGiven(op);
      if Makeable(op, mode) && fs.stat.ffree != 0 {
        DoCreateOutcome(fs, op.p, op.name, CreateMode(op), CreateLink(op), op.meta);
        NamingIs(fs, op);
        hide DoCreateNode, ReplyNew;
      }
    }
  }

  /** The mode each request hands on. */
  lemma {:induction false} ModeGiven(op: Op)
    requires IsCreate(op)
    ensures CreateMode(op) == match op
                              case MknodOp(_, _, m, _) => m
                              case MkdirOp(_, _, m, _) => OrBit(m, S_IFDIR)
                              case CreateOp(_, _, m, _) => OrBit(m, S_IFREG)
                              case SymlinkOp(_, _, _, _) => SYMLINK_MODE
    ensures op.SymlinkOp? ==> Makeable(op, CreateMode(op))
  {
  }

  // ------------------------------------------------------------------- what is made

  /** The request goes through: the entry is answered, or ENOSPC was answered before for
      want of room for the name of a symlink. */
  ghost predicate GoesThrough(fs: Fs, op: Op, mode: nat)
    requires IsCreate(op)
  {
    && !Gone(fs, op.p) && IsDir(fs, op.p) && fs.stat.ffree != 0
    && op.name !in Bindings(fs, op.p) && Makeable(op, mode) && SpaceLeft(fs, op, mode)
  }

  lemma {:induction false} EntersIsThrough(fs: Fs, op: Op)
    requires SlotsOk(fs) && Lawful(fs) && IsCreate(op)
    ensures Enters(fs, op) <==> GoesThrough(fs, op, CreateMode(op))
  {
    hide NewBody, CreateMode, Bindings, SlotsOk, Lawful, Naming, NewNode, SpaceLeft, Makeable, Enters;
    if Attempt(fs, op).Some? {
      MakeableIs(op);
      EntersIff(fs, op);
      NamingIs(fs, op);
    } else {
      NotAttempted(fs, op);
      if CheckParent(fs, op.p) == OK {
        ChildLeads(fs, op.p, op.name);
        MakeableIs(op);
      }
    }
  }

  /** When an entry is answered, and only then or for a symlink whose name had no room,
      the request has gone through. */
  lemma {:induction false} EntryIffThrough(fs: Fs, op: Op, mode: nat)
    requires SlotsOk(fs) && Lawful(fs) && IsCreate(op) && Requested(op, mode)
    ensures FsStep(fs, op).1.EntryOf? ==> GoesThrough(fs, op, mode) && FsStep(fs, op).1 == EntryOf(Slot(fs))
    ensures GoesThrough(fs, op, mode) ==> FsStep(fs, op).1 == EntryOf(Slot(fs)) || op.SymlinkOp?
  {
    hide FsStep, Bindings, SlotsOk, Lawful, SpaceLeft, Makeable, Requested, NBlocks;
    CreateAnswers(fs, op, mode);
  }

  lemma {:induction false} PlacedBinds(fs: Fs, n: Node)
    requires SlotsOk(fs)
    ensures forall d: nat :: d != NextSlot(fs) ==> Bindings(Placed(fs, n), d) == Bindings(fs, d)
    ensures forall j: nat :: Live(fs, j) ==> Live(Placed(fs, n), j) && At(Placed(fs, n), j) == At(fs, j)
    ensures forall j: nat :: Live(Placed(fs, n), j) ==> Live(fs, j) || j == NextSlot(fs)
    ensures Live(Placed(fs, n), NextSlot(fs)) && At(Placed(fs, n), NextSlot(fs)) == n && !Live(fs, NextSlot(fs))
  {
    hide UseBlocks, UseInodes, Charge, ToMap;
    NextIsFree(fs);
  }

  /** Name added, parent's link for a directory, one lookup: nothing else changes. */
  lemma {:induction false} FinishedMeans(fs: Fs, n: Node, p: nat, name: Name)
    requires SlotsOk(fs) && Lawful(fs) && NodeLaw(n) && IsDir(fs, p) && n.h.nlookup == 0
    requires Naming(fs, n, p, name) == OK
    ensures var g, i := Finished(fs, n, p, name), NextSlot(fs);
            && !Live(fs, i) && Live(g, i) && At(g, i) == n.(h := n.h.(nlookup := 1))
            && Lawful(g) && g.deleted == (if fs.deleted == [] then [] else fs.deleted[1..])
            && name !in Bindings(fs, p) && Bindings(g, p) == Bindings(fs, p)[name := i]
            && (forall d: nat :: d != p && d != i ==> Bindings(g, d) == Bindings(fs, d))
            && (forall j: nat :: Live(g, j) <==> Live(fs, j) || j == i)
            && (forall j: nat :: Live(fs, j) && j != p ==> At(g, j) == At(fs, j))
            && IsDir(g, p) && At(g, p).h.nlink == (if n.body.DirBody? then Wrap(At(fs, p).h.nlink + 1)
                                                   else At(fs, p).h.nlink)
            && (var h, h' := At(fs, p).h, At(g, p).h;
                h' == h.(nlink := h'.nlink, size := h'.size, blocks := h'.blocks))
            && g.stat == fs.stat.(bfree := g.stat.bfree, bavail := g.stat.bavail,
                                  ffree := Wrap(fs.stat.ffree - 1), favail := Wrap(fs.stat.favail - 1))
  {
    hide SlotsOk, Lawful, Bindings, Placed, AddChild, AddLinks, Frame, Wrap, NodeLaw;
    var f, i := Placed(fs, n), NextSlot(fs);
    PlacedBinds(fs, n);
    PlacedParent(fs, n, p);
    PlacedLawful(fs, n);
    PlacedCounts(fs, n);
    NameFitsIff(f, p, name, i);
    FitsIff(f, p, name);
    AddMeans(f, p, name, i);
    FitsUnbound(f, p, name);
    var f1 := AddChild(f, p, name, i).0;
    FrameLive(f, f1, {p});
    LinksMean(f1, p, 1);
    FrameLive(f1, AddLinks(f1, p, 1), {});
    FrameJoins(f, f1, AddLinks(f1, p, 1), {p}, {});
    assert {p} + {} == {p};
    var f2 := if n.body.DirBody? then AddLinks(f1, p, 1) else f1;
    assert Frame(f, f2, {p});
    FrameNodes(f, f2, p);
    CountedIn(f2, i);
    WrapExact(1);
  }

  lemma {:induction false} PlacedLawful(fs: Fs, n: Node)
    requires Lawful(fs) && NodeLaw(n)
    ensures Lawful(Placed(fs, n))
  {
    hide Lawful, NodeLaw, UseBlocks, UseInodes, Charge;
    PutLawful(fs, Placed(fs, n), NextSlot(fs), Some(n));
  }

  lemma {:induction false} PlacedCounts(fs: Fs, n: Node)
    ensures var f := Placed(fs, n);
            && f.deleted == (if fs.deleted == [] then [] else fs.deleted[1..])
            && f.stat == fs.stat.(bfree := f.stat.bfree, bavail := f.stat.bavail,
                                  ffree := Wrap(fs.stat.ffree - 1), favail := Wrap(fs.stat.favail - 1))
  {
    hide Wrap, Charge;
  }

  lemma {:induction false} FrameNodes(fs: Fs, g: Fs, p: nat)
    requires Frame(fs, g, {p}) && forall j: nat :: j != p ==> Nlink(g, j) == Nlink(fs, j)
    ensures forall j: nat :: Live(fs, j) && j != p ==> At(g, j) == At(fs, j)
    ensures Live(fs, p) ==> var h, h' := At(fs, p).h, At(g, p).h;
                            h' == h.(nlink := h'.nlink, size := h'.size, blocks := h'.blocks)
    ensures g.deleted == fs.deleted && g.stat == fs.stat.(bfree := g.stat.bfree, bavail := g.stat.bavail)
  {
    forall j: nat | Live(fs, j) && j != p ensures At(g, j) == At(fs, j) {
      assert Nlink(g, j) == Nlink(fs, j);
    }
  }

  lemma {:induction false} CountedIn(fs: Fs, i: nat)
    requires Lawful(fs) && Live(fs, i)
    ensures var g := AddLookups(fs, i, 1);
            && Lawful(g) && g.deleted == fs.deleted && g.stat == fs.stat
            && (forall d: nat :: Bindings(g, d) == Bindings(fs, d) && (IsDir(g, d) <==> IsDir(fs, d)))
            && (forall j: nat :: (Live(g, j) <==> Live(fs, j)) && (Live(fs, j) && j != i ==> At(g, j) == At(fs, j)))
            && At(g, i) == At(fs, i).(h := At(fs, i).h.(nlookup := Wrap(At(fs, i).h.nlookup + 1)))
  {
    hide Lawful, Wrap, ToMap;
    LinksLawful(fs, i, 1);
  }

  /** What a create that goes through makes: one inode that was not there, as asked for,
      one new binding, for a directory one more link of the parent, and nothing else. */
  lemma {:induction false} CreateMakes(fs: Fs, op: Op, mode: nat)
    requires SlotsOk(fs) && Lawful(fs) && IsCreate(op) && Requested(op, mode) && GoesThrough(fs, op, mode)
    ensures var g, i, p := FsStep(fs, op).0, Slot(fs), op.p;
            && !Live(fs, i) && Live(g, i) && IsNew(At(g, i), i, At(fs, p).h.ino, op, mode)
            && Lawful(g) && g.deleted == (if fs.deleted == [] then [] else fs.deleted[1..])
            && Bindings(g, p) == Bindings(fs, p)[op.name := i]
            && (forall d: nat :: d != p && d != i ==> Bindings(g, d) == Bindings(fs, d))
            && (forall j: nat :: Live(g, j) <==> Live(fs, j) || j == i)
            && (forall j: nat :: Live(fs, j) && j != p ==> At(g, j) == At(fs, j))
            && IsDir(g, p) && At(g, p).h.nlink == (if TypeBits(mode) == 4 then Wrap(At(fs, p).h.nlink + 1)
                                                   else At(fs, p).h.nlink)
            && (var h, h' := At(fs, p).h, At(g, p).h;
                h' == h.(nlink := h'.nlink, size := h'.size, blocks := h'.blocks))
            && g.stat == fs.stat.(bfree := g.stat.bfree, bavail := g.stat.bavail,
                                  ffree := Wrap(fs.stat.ffree - 1), favail := Wrap(fs.stat.favail - 1))
  {
    hide FsStep, SlotsOk, Lawful, Bindings, Finished, Abandoned, Enters, Requested, Makeable, SpaceLeft, Naming;
    hide NodeLaw, CreateMode, NewBody, Wrap, TypeBits;
    RequestedIs(op, mode);
    EntersIsThrough(fs, op);
    CreateOutcome(fs, op);
    ThroughAttempts(fs, op);
    EntersIff(fs, op);
    var n := Attempt(fs, op).value;
    AttemptIsNew(fs, op);
    FinishedMeans(fs, n, op.p, op.name);
  }

  lemma {:induction false} ThroughAttempts(fs: Fs, op: Op)
    requires IsCreate(op) && Enters(fs, op)
    ensures Attempt(fs, op).Some?
  {
  }

  /** The attempted node, with its lookup counted, is the one asked for. */
  lemma {:induction false} AttemptIsNew(fs: Fs, op: Op)
    requires SlotsOk(fs) && IsCreate(op) && Attempt(fs, op).Some?
    ensures var n := Attempt(fs, op).value;
            && NodeLaw(n) && n.h.nlookup == 0 && Live(fs, op.p) && IsDir(fs, op.p)
            && IsNew(n.(h := n.h.(nlookup := 1)), Slot(fs), At(fs, op.p).h.ino, op, CreateMode(op))
            && (n.body.DirBody? <==> TypeBits(CreateMode(op)) == 4)
  {
    hide NewBody, CreateMode, NodeLaw, SlotsOk, TypeBits;
    MakeableIs(op);
    BodyIs(op);
    NextIsFree(fs);
    NewNodeOk(fs, op.p, CreateMode(op), CreateLink(op), op.meta);
  }
}
