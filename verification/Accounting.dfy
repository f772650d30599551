/** Block, inode and lookup accounting. */
module Accounting {
  import opened Base
  import opened Model
  import opened Graph
  import opened Invariant
  import opened Namespace
  import opened Runs
  import opened Laws

  function BlocksW(): Option<Node> -> int {
    (o: Option<Node>) => if o.Some? then o.value.h.blocks else 0
  }

  ghost function SumBlocks(fs: Fs): int {
    Sum(fs.nodes, BlocksW())
  }

  /** Blocks counted as used beyond those the inodes own. */
  ghost function Excess(fs: Fs): int {
    fs.stat.blocks - fs.stat.bfree - SumBlocks(fs)
  }

  /** The same modulo 2^64, which no overdraft of f_bfree disturbs. */
  ghost function Drift(fs: Fs): word {
    Wrap(Excess(fs))
  }

  /** A charge of c against a growth of s blocks shifts the drift by c - s. */
  lemma {:induction false} DriftShift(fs: Fs, g: Fs, c: int, s: int)
    requires g.stat.blocks == fs.stat.blocks && g.stat.bfree == Wrap(fs.stat.bfree - c)
    requires SumBlocks(g) == SumBlocks(fs) + s
    ensures Drift(g) == Wrap(Drift(fs) + c - s)
  {
    WrapSwap(fs.stat.blocks - SumBlocks(fs) - s, fs.stat.bfree - c);
    WrapShift(fs.stat.blocks - fs.stat.bfree - SumBlocks(fs), c - s);
  }

  lemma {:induction false} WrapSwap(a: int, b: int)
    ensures Wrap(a - Wrap(b)) == Wrap(a - b)
  {
  }

  // --------------------------------------------------- requests that only move blocks

  /** Same slots, same lookup counts, same drift. */
  ghost predicate Steady(fs: Fs, g: Fs) {
    && SameSlots(fs, g)
    && g.stat.blocks == fs.stat.blocks && Drift(g) == Drift(fs)
    && forall i: nat :: Live(fs, i) ==> At(g, i).h.nlookup == At(fs, i).h.nlookup
  }

  lemma {:induction false} SetNodeSteady(fs: Fs, g: Fs, i: nat, n: Node)
    requires Live(fs, i) && n.h.nlookup == At(fs, i).h.nlookup
    requires g.nodes == fs.nodes[i := Some(n)] && g.deleted == fs.deleted
    requires g.stat == UseBlocks(fs.stat, n.h.blocks - At(fs, i).h.blocks)
    ensures Steady(fs, g)
  {
    SumUpdate(fs.nodes, i, Some(n), BlocksW());
    DriftShift(fs, g, n.h.blocks - At(fs, i).h.blocks, n.h.blocks - At(fs, i).h.blocks);
    WrapExact(Drift(fs));
  }

  lemma {:induction false} AddChildSteady(fs: Fs, d: nat, name: Name, ino: nat)
    ensures Steady(fs, AddChild(fs, d, name, ino).0)
  {
    hide Drift;
    var g := AddChild(fs, d, name, ino).0;
    if g != fs {
      SetNodeSteady(fs, g, d, At(g, d));
    }
  }

  lemma {:induction false} RemoveChildSteady(fs: Fs, d: nat, name: Name)
    ensures Steady(fs, RemoveChild(fs, d, name))
  {
    hide Drift;
    var g := RemoveChild(fs, d, name);
    if IsDir(fs, d) && Find(Children(fs, d), name) < |Children(fs, d)| {
      SetNodeSteady(fs, g, d, At(g, d));
    }
  }

  lemma {:induction false} UpdateChildSteady(fs: Fs, d: nat, name: Name, ino: nat)
    ensures Steady(fs, UpdateChild(fs, d, name, ino))
  {
    hide Drift;
    var g := UpdateChild(fs, d, name, ino);
    NoCharge(fs.stat);
    if IsDir(fs, d) && Find(Children(fs, d), name) < |Children(fs, d)| {
      SetNodeSteady(fs, g, d, At(g, d));
    }
  }

  lemma {:induction false} AddLinksSteady(fs: Fs, i: nat, n: int)
    ensures Steady(fs, AddLinks(fs, i, n))
  {
    hide Drift;
    NoCharge(fs.stat);
    if Live(fs, i) {
      SetNodeSteady(fs, AddLinks(fs, i, n), i, At(AddLinks(fs, i, n), i));
    }
  }

  lemma {:induction false} SetDataSteady(fs: Fs, i: nat, data: seq<byte>)
    requires IsFile(fs, i)
    ensures Steady(fs, SetData(fs, i, data))
  {
    hide Drift;
    SetNodeSteady(fs, SetData(fs, i, data), i, At(SetData(fs, i, data), i));
  }

  /** Requests that neither register, reclaim, nor hand out an entry. */
  predicate IsQuiet(op: Op) {
    op.UnlinkOp? || op.RmdirOp? || op.RenameOp? || op.WriteOp? || op.TruncateOp? || op.ReadOp? || op.SetAttrOp?
  }

  lemma {:induction false} RmdirSteady(fs: Fs, p: nat, name: Name)
    ensures Steady(fs, Rmdir(fs, p, name).0)
  {
    hide Drift;
    var g := Rmdir(fs, p, name).0;
    if g != fs {
      var ino := ChildIno(Children(fs, p), name);
      var f := RemoveChild(fs, p, name);
      var f1 := AddLinks(f, p, -1);
      RemoveChildSteady(fs, p, name);
      AddLinksSteady(f, p, -1);
      hide RemoveChild, AddLinks;
      NoCharge(f1.stat);
      if Live(f1, ino) {
        SetNodeSteady(f1, g, ino, At(g, ino));
      }
    }
  }

  lemma {:induction false} RenameSteady(fs: Fs, p: nat, name: Name, np: nat, newname: Name)
    ensures Steady(fs, Rename(fs, p, name, np, newname).0)
  {
    hide Drift, AddChild, UpdateChild, RemoveChild, AddLinks, IsEmpty;
    if RenameCheck(fs, p, name, np) == OK {
      var src, dst := ChildIno(Children(fs, p), name), ChildIno(Children(fs, np), newname);
      var f1 := AddChild(fs, np, newname, src).0;
      var f2 := RemoveChild(f1, p, name);
      AddChildSteady(fs, np, newname, src);
      RemoveChildSteady(f1, p, name);
      AddLinksSteady(f2, p, -1);
      AddLinksSteady(AddLinks(f2, p, -1), np, 1);
      if Occupied(fs, dst) {
        var h0 := AddLinks(fs, dst, -1);
        var h1 := UpdateChild(h0, np, newname, src);
        var h2 := RemoveChild(h1, p, name);
        AddLinksSteady(fs, dst, -1);
        UpdateChildSteady(h0, np, newname, src);
        RemoveChildSteady(h1, p, name);
        AddLinksSteady(h2, dst, -2);
        AddLinksSteady(AddLinks(h2, dst, -2), p, -1);
      }
    }
  }

  lemma {:induction false} QuietSteady(fs: Fs, op: Op)
    requires IsQuiet(op)
    ensures Steady(fs, FsStep(fs, op).0)
  {
    hide Drift, RemoveChild, AddLinks, SetData, Overwrite, Resized, Rename, Rmdir;
    match op
    case UnlinkOp(p, name) =>
      RemoveChildSteady(fs, p, name);
      if IsDir(fs, p) {
        AddLinksSteady(RemoveChild(fs, p, name), ChildIno(Children(fs, p), name), -1);
      }
    case RmdirOp(p, name) => RmdirSteady(fs, p, name);
    case RenameOp(p, name, np, newname) => RenameSteady(fs, p, name, np, newname);
    case WriteOp(ino, data, off, mem) =>
      if IsFile(fs, ino) {
        SetDataSteady(fs, ino, Overwrite(At(fs, ino).body.data, data, off));
      }
    case TruncateOp(ino, size, mem) =>
      if IsFile(fs, ino) {
        SetDataSteady(fs, ino, Resized(At(fs, ino).body.data, size));
      }
    case ReadOp(_, _, _) =>
    case SetAttrOp(ino, mode, meta) =>
      var g := SetAttr(fs, ino, mode, meta).0;
      NoCharge(fs.stat);
      if Live(fs, ino) {
        SetNodeSteady(fs, g, ino, At(g, ino));
      }
  }

  // ------------------------------------------------------------------ create requests

  /** The node a create request registers, if it gets that far. */
  function Attempt(fs: Fs, op: Op): Option<Node>
    requires IsCreate(op)
  {
    var body := NewBody(CreateMode(op), CreateLink(op));
    if CheckParent(fs, op.p) != OK || fs.stat.ffree == 0 || body.None? then None
    else if !op.CreateOp? && ChildIno(Children(fs, op.p), op.name) != 0 then None
    else Some(NewNode(fs, op.p, CreateMode(op), body.value, op.meta))
  }

  /** The file system after the name was added and the entry replied. */
  function Finished(fs: Fs, n: Node, p: nat, name: Name): Fs {
    var f := AddChild(Placed(fs, n), p, name, NextSlot(fs)).0;
    AddLookups(if n.body.DirBody? then AddLinks(f, p, 1) else f, NextSlot(fs), 1)
  }

  /** The parent's answer to the new name. */
  function Naming(fs: Fs, n: Node, p: nat, name: Name): Errno {
    AddChild(Placed(fs, n), p, name, NextSlot(fs)).1
  }

  /** A create request goes through: its node is registered and, with the node's
      blocks charged, the name is free and the parent may grow. */
  predicate Enters(fs: Fs, op: Op)
    requires IsCreate(op)
  {
    Attempt(fs, op).Some? &&
    var f := Placed(fs, Attempt(fs, op).value);
    IsDir(f, op.p) && NameFits(f, op.p, op.name)
  }

  /** A symlink that goes through after ENOSPC has been answered. */
  predicate Misreported(fs: Fs, op: Op)
    requires IsCreate(op)
  {
    op.SymlinkOp? && !SymlinkRoom(fs.stat, op.name) && Enters(fs, op)
  }

  lemma {:induction false} EntersIff(fs: Fs, op: Op)
    requires IsCreate(op) && Attempt(fs, op).Some?
    ensures Enters(fs, op) <==> Naming(fs, Attempt(fs, op).value, op.p, op.name) == OK
  {
    hide Attempt, Placed, NameFits, AddChild;
    var f := Placed(fs, Attempt(fs, op).value);
    if IsDir(f, op.p) {
      NameFitsIff(f, op.p, op.name, NextSlot(fs));
    } else {
      NotDir(f, op.p, op.name, NextSlot(fs));
    }
  }

  lemma {:induction false} NotDir(fs: Fs, d: nat, name: Name, ino: nat)
    requires !IsDir(fs, d)
    ensures AddChild(fs, d, name, ino) == (fs, ENOTDIR)
  {
  }

  lemma {:induction false} DoCreateOutcome(fs: Fs, p: nat, name: Name, mode: nat, link: Option<seq<byte>>,
                                           meta: seq<byte>)
    requires SlotsOk(fs) && Live(fs, p) && NewBody(mode, link).Some? && fs.stat.ffree != 0
    ensures var n := NewNode(fs, p, mode, NewBody(mode, link).value, meta);
            ReplyNew(DoCreateNode(fs, p, name, mode, link, meta))
            == if Naming(fs, n, p, name) == OK then (Finished(fs, n, p, name), EntryOf(NextSlot(fs)))
               else (Abandoned(fs, n), Error(Naming(fs, n, p, name)))
  {
    var body := NewBody(mode, link).value;
    PreparedShape(fs, p, mode, body, meta);
    FailedCreateShape(fs, p, mode, body, meta);
    if Naming(fs, NewNode(fs, p, mode, body, meta), p, name) != OK {
      FailedAdd(Prepared(fs, p, mode, body, meta), p, name, NextSlot(fs));
    }
    hide Prepared, SlotsOk, AddLookups, AddLinks, Rollback, AddChild, Placed, Abandoned, NewNode, NewBody;
  }

  lemma {:induction false} FailedAdd(fs: Fs, d: nat, name: Name, ino: nat)
    requires AddChild(fs, d, name, ino).1 != OK
    ensures AddChild(fs, d, name, ino).0 == fs
  {
  }

  /** The outcomes of a create request: no inode registered, the entry made, or the
      registration undone; and what is answered. */
  lemma {:induction false} CreateOutcome(fs: Fs, op: Op)
    requires SlotsOk(fs) && IsCreate(op)
    ensures var a := Attempt(fs, op);
            FsStep(fs, op).0 == if a.None? then fs
                                else if Enters(fs, op) then Finished(fs, a.value, op.p, op.name)
                                else Abandoned(fs, a.value)
    ensures if Enters(fs, op) && !Misreported(fs, op) then FsStep(fs, op).1 == EntryOf(NextSlot(fs))
            else FsStep(fs, op).1.Error?
  {
    hide DoCreateNode, Finished, Abandoned, Naming, NewNode, SlotsOk, Enters, SymlinkRoom;
    if Attempt(fs, op).Some? {
      DoCreateOutcome(fs, op.p, op.name, CreateMode(op), CreateLink(op), op.meta);
      EntersIff(fs, op);
      hide ReplyNew;
    } else {
      NotAttempted(fs, op);
    }
  }

  lemma {:induction false} NotAttempted(fs: Fs, op: Op)
    requires IsCreate(op) && Attempt(fs, op).None?
    ensures !Enters(fs, op) && FsStep(fs, op).0 == fs && FsStep(fs, op).1.Error?
  {
  }

  /** Every inode, and so every name, link and byte, and f_ffree are as before; only
      the free queue, a null slot and the block counters may differ. */
  ghost predicate Unseen(fs: Fs, g: Fs) {
    && (forall i: nat :: Live(g, i) <==> Live(fs, i))
    && (forall i: nat :: Live(fs, i) ==> At(g, i) == At(fs, i))
    && g.stat == fs.stat.(bfree := g.stat.bfree, bavail := g.stat.bavail)
    && multiset(g.deleted) == multiset(fs.deleted + (if |g.nodes| > |fs.nodes| then [|fs.nodes|] else []))
    && SlotsOk(g)
  }

  lemma {:induction false} AbandonedUnseen(fs: Fs, n: Node)
    requires SlotsOk(fs)
    ensures Unseen(fs, Abandoned(fs, n))
  {
    RolledBackSlots(fs, Abandoned(fs, n));
    hide SlotsOk;
    assert fs.deleted != [] ==> fs.deleted == [fs.deleted[0]] + fs.deleted[1..];
  }

  /** A create that answers an error leaves nothing behind, if and only if it is not
      a symlink that goes through without room for its name. */
  lemma {:induction false} FailedCreateInvisible(fs: Fs, op: Op)
    requires SlotsOk(fs) && IsCreate(op)
    ensures (FsStep(fs, op).1.Error? ==> Unseen(fs, FsStep(fs, op).0)) <==> !Misreported(fs, op)
  {
    hide FsStep, Attempt, Finished, Abandoned, SlotsOk, Enters;
    CreateOutcome(fs, op);
    assert fs.deleted + [] == fs.deleted;
    if Attempt(fs, op).Some? {
      var n := Attempt(fs, op).value;
      AbandonedUnseen(fs, n);
      FinishedSeen(fs, n, op.p, op.name);
    } else {
      NotAttempted(fs, op);
    }
  }

  lemma {:induction false} FinishedSeen(fs: Fs, n: Node, p: nat, name: Name)
    requires SlotsOk(fs)
    ensures Live(Finished(fs, n, p, name), NextSlot(fs)) && !Live(fs, NextSlot(fs))
  {
    hide AddChild, AddLinks, Drift;
    assert fs.deleted != [] ==> NextSlot(fs) in fs.deleted;
    var f0 := Placed(fs, n);
    assert Live(f0, NextSlot(fs));
    var f := AddChild(f0, p, name, NextSlot(fs)).0;
    AddChildSteady(f0, p, name, NextSlot(fs));
    AddLinksSteady(f, p, 1);
  }

  /** How much a request adds to the drift: one block per registered directory, and
      twice the node's blocks when the name could not be added. */
  function DriftOf(fs: Fs, op: Op): nat
    requires !op.CheckpointOp? && !op.RestoreOp?
  {
    if IsCreate(op) && Attempt(fs, op).Some? then
      var n := Attempt(fs, op).value;
      (if n.body.DirBody? then 1 else 0) + (if Enters(fs, op) then 0 else 2 * n.h.blocks)
    else 0
  }

  lemma {:induction false} PlacedDrift(fs: Fs, n: Node)
    requires SlotsOk(fs)
    ensures Drift(Placed(fs, n)) == Wrap(Drift(fs) + Charge(n) - n.h.blocks)
    ensures Placed(fs, n).stat.blocks == fs.stat.blocks
  {
    var ino := NextSlot(fs);
    if fs.deleted == [] {
      SumAppend(fs.nodes, Some(n), BlocksW());
    } else {
      assert ino in fs.deleted;
      SumUpdate(fs.nodes, ino, Some(n), BlocksW());
    }
    DriftShift(fs, Placed(fs, n), Charge(n), n.h.blocks);
  }

  lemma {:induction false} FinishedDrift(fs: Fs, n: Node, p: nat, name: Name)
    requires SlotsOk(fs)
    ensures Drift(Finished(fs, n, p, name)) == Wrap(Drift(fs) + Charge(n) - n.h.blocks)
    ensures Finished(fs, n, p, name).stat.blocks == fs.stat.blocks
  {
    hide AddChild, AddLinks, AddLookups, Placed, Drift, Charge, SlotsOk;
    var f := AddChild(Placed(fs, n), p, name, NextSlot(fs)).0;
    PlacedDrift(fs, n);
    AddChildSteady(Placed(fs, n), p, name, NextSlot(fs));
    AddLinksSteady(f, p, 1);
    LookupsDrift(if n.body.DirBody? then AddLinks(f, p, 1) else f, NextSlot(fs), 1);
  }

  lemma {:induction false} AbandonedDrift(fs: Fs, n: Node)
    ensures Drift(Abandoned(fs, n)) == Wrap(Drift(fs) + Charge(n) + n.h.blocks)
    ensures Abandoned(fs, n).stat.blocks == fs.stat.blocks
  {
    SumAppend(fs.nodes, None, BlocksW());
    DriftShift(fs, Abandoned(fs, n), Charge(n) + n.h.blocks, 0);
  }

  lemma {:induction false} CreateDrift(fs: Fs, op: Op)
    requires SlotsOk(fs) && IsCreate(op)
    ensures Drift(FsStep(fs, op).0) == Wrap(Drift(fs) + DriftOf(fs, op))
    ensures FsStep(fs, op).0.stat.blocks == fs.stat.blocks
  {
    hide FsStep, Attempt, Enters, Finished, Abandoned, Drift, SlotsOk, Wrap;
    CreateOutcome(fs, op);
    if Attempt(fs, op).Some? {
      var n := Attempt(fs, op).value;
      NewDirHasOneBlock(fs, op);
      FinishedDrift(fs, n, op.p, op.name);
      AbandonedDrift(fs, n);
    } else {
      WrapExact(Drift(fs));
    }
  }

  lemma {:induction false} NewDirHasOneBlock(fs: Fs, op: Op)
    requires IsCreate(op) && Attempt(fs, op).Some?
    ensures Attempt(fs, op).value.body.DirBody? ==> Attempt(fs, op).value.h.blocks == 1
  {
  }

  lemma {:induction false} LookupsDrift(fs: Fs, i: nat, n: int)
    ensures Drift(AddLookups(fs, i, n)) == Drift(fs) && AddLookups(fs, i, n).stat == fs.stat
  {
    if Live(fs, i) {
      SumUpdate(fs.nodes, i, AddLookups(fs, i, n).nodes[i], BlocksW());
    }
  }

  lemma {:induction false} ForgetDrift(fs: Fs, ino: nat, n: nat)
    ensures Drift(Forget(fs, ino, n)) == Drift(fs) && Forget(fs, ino, n).stat.blocks == fs.stat.blocks
  {
    var f := AddLookups(fs, ino, 0 - n);
    LookupsDrift(fs, ino, 0 - n);
    if Live(fs, ino) && At(f, ino).h.nlookup == 0 && At(f, ino).h.nlink == 0 {
      var g := Forget(fs, ino, n);
      SumUpdate(f.nodes, ino, None, BlocksW());
      DriftShift(f, g, 0 - At(f, ino).h.blocks, 0 - At(f, ino).h.blocks);
      WrapExact(Drift(f));
    }
  }

  /** The block law: the drift changes by DriftOf and by nothing else; write,
      truncate, unlink, rmdir, rename, link and forget balance their books. */
  lemma {:induction false} BlockLaw(fs: Fs, op: Op)
    requires SlotsOk(fs) && !op.CheckpointOp? && !op.RestoreOp?
    ensures Drift(FsStep(fs, op).0) == Wrap(Drift(fs) + DriftOf(fs, op))
    ensures FsStep(fs, op).0.stat.blocks == fs.stat.blocks
  {
    hide FsStep, Drift, SlotsOk, Attempt, Enters;
    WrapExact(Drift(fs));
    if IsCreate(op) {
      CreateDrift(fs, op);
    } else if IsQuiet(op) {
      QuietSteady(fs, op);
    } else {
      OtherDrift(fs, op);
    }
  }

  lemma {:induction false} OtherDrift(fs: Fs, op: Op)
    requires op.LookupOp? || op.LinkOp? || op.ForgetOp?
    ensures Drift(FsStep(fs, op).0) == Drift(fs)
    ensures FsStep(fs, op).0.stat.blocks == fs.stat.blocks
  {
    hide Drift, AddChild, AddLinks, AddLookups, Forget;
    match op
    case LookupOp(p, name) =>
      if IsDir(fs, p) {
        LookupsDrift(fs, ChildIno(Children(fs, p), name), 1);
      }
    case LinkOp(ino, np, newname) =>
      var f := AddChild(fs, np, newname, ino).0;
      AddChildSteady(fs, np, newname, ino);
      AddLinksSteady(f, ino, 1);
      LookupsDrift(AddLinks(f, ino, 1), ino, 1);
    case ForgetOp(ino, n) => ForgetDrift(fs, ino, n);
  }

  /** The initial state has counted the root's block twice. */
  lemma {:induction false} InitDrift(blocks: word, files: word, fixed: seq<byte>, rootMode: nat, meta: seq<byte>)
    ensures Drift(Init(blocks, files, fixed, rootMode, meta)) == 1
  {
    var fs := Init(blocks, files, fixed, rootMode, meta);
    InitShape(blocks, files, fixed, rootMode, meta);
    hide Init;
    assert fs.nodes == [fs.nodes[0]] + [fs.nodes[1]] && [] + [fs.nodes[0]] == [fs.nodes[0]];
    SumAppend([fs.nodes[0]], fs.nodes[1], BlocksW());
    SumAppend([], fs.nodes[0], BlocksW());
    var s := Sized(blocks, files, fixed);
    WrapSwap(s.blocks - 1, s.bfree - 2);
  }

  // ----------------------------------------------------------- charges are covered

  /** What a request takes from f_bfree. */
  function Taken(fs: Fs, g: Fs, i: nat): int
    requires Live(fs, i) && Live(g, i)
  {
    At(g, i).h.blocks - At(fs, i).h.blocks
  }

  /** The space check, asked with the blocks an inode owns, is exact: growing passes if
      and only if the charge made for it later does not wrap f_bfree. */
  lemma {:induction false} GuardIsExact(s: Stat, size: nat, inc: nat)
    ensures var charge := NBlocks(size + inc) - NBlocks(size);
            HasSpaceFor(s, NBlocks(size), size, inc) <==> UseBlocks(s, charge).bfree == s.bfree - charge
  {
  }

  /** The space check computes exactly the later charge: adding a name never drives
      f_bfree below zero. */
  lemma {:induction false} AddChildCovered(fs: Fs, d: nat, name: Name, ino: nat)
    requires Lawful(fs) && AddChild(fs, d, name, ino).1 == OK
    ensures var g := AddChild(fs, d, name, ino).0;
            0 <= Taken(fs, g, d) <= fs.stat.bfree && g.stat.bfree == fs.stat.bfree - Taken(fs, g, d)
  {
    assert NodeLaw(At(fs, d));
  }

  /** The same for write and truncate: a charge is covered by free blocks. */
  lemma {:induction false} DataCovered(fs: Fs, op: Op)
    requires Lawful(fs) && (op.WriteOp? || op.TruncateOp?) && Live(fs, op.ino)
    ensures var g := FsStep(fs, op).0;
            Taken(fs, g, op.ino) > 0 ==>
              Taken(fs, g, op.ino) <= fs.stat.bfree && g.stat.bfree == fs.stat.bfree - Taken(fs, g, op.ino)
  {
    hide Overwrite, Resized, DirSize, TypeBits, Zeros;
    assert NodeLaw(At(fs, op.ino));
    if IsFile(fs, op.ino) && op.WriteOp? {
      var h := At(fs, op.ino).h;
      BlocksOfWrite(h.size, op.off + |op.data|);
    }
  }
}
